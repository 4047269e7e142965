/** client.ts: the serial client as an event machine. Each event runs to its next `await`; what is
  * still awaited is kept as pending work that later events finish, in any order. */
module CliClient {
  import opened Bytes
  import opened CliFraming
  import opened Collector

  datatype Status = Disconnected | Connecting | Connected | Reconnecting | Failed

  /** Work that was started and not finished: a port being closed (for a `connect` that goes on
    * afterwards, or not), such a `connect` itself, a port being opened, the pause before a reconnect. */
  datatype Pending = Closing(resume: bool) | Resuming | Opening | Pausing

  /** One `sendRaw` that was accepted: the port it was written to, its collector, and whether the idle
    * timer was ever started. */
  datatype Command = Command(line: string, maxChars: nat, port: nat, view: View, idle: bool)

  /** `port`; the port whose handlers fill the handler fields; the ports our handlers are on; the open
    * ports; how many ports were ever opened. */
  datatype Link = Link(port: Option<nat>, slot: Option<nat>, attached: set<nat>, open: set<nat>, count: nat)

  /** `collector` is the command the client's collector belongs to. */
  datatype Talk = Talk(collector: Option<nat>, commands: seq<Command>, lineBuf: string, lines: seq<string>,
                       sent: seq<string>, wire: seq<string>)

  datatype Session = Session(status: Status, intentionalClose: bool, hasLast: bool, attempt: nat,
                             pending: multiset<Pending>)

  datatype Client = Client(link: Link, talk: Talk, session: Session, reconnect: bool, maxAttempts: nat)

  datatype Input =
    | SendRaw(line: string, maxChars: nat)
    | Received(port: nat, chunk: string)
    | HardTimer
    | IdleTimer
    | Connect
    | Disconnect
    | PortClosed(port: nat)
    | PortError(port: nat)
    | Closed(resume: bool)
    | Resumed
    | Opened
    | OpenFailed
    | PauseOver

  // ---------------------------------------------------------------- commands with framed replies

  function EndMarkerOf(line: string): Option<string> {
    if line == "barometer" then Some("barometer_end: 1")
    else if line == "flash_info" then Some("flash_info_end: 1")
    else if StartsWith(line, "sd read") then Some("sd_data_end: 1")
    else if StartsWith(line, "blackbox ") then Some("blackbox_end: 1")
    else if StartsWith(line, "sd ") then Some("sd_end: 1")
    else if line == "pid_diag" || StartsWith(line, "pid_diag ") then Some("pid_diag_end: 1")
    else if line == "storage" then Some("storage_end: 1")
    else if line == "diff all" || line == "dump all" then Some("# config_end: 1")
    else if line == "ports" then Some("ports_end: 1")
    else if line == "modes" || StartsWith(line, "mode_range ") || StartsWith(line, "control_source ")
    then Some("modes_end: 1")
    else if line == "timing" then Some("timing_end: 1")
    else if line == "loop_rate" then Some("loop_rate_end: 1")
    else if line == "mixer" then Some("mixer_end: 1")
    else if line == "sensors" then Some("sensors_end: 1")
    else if line == "calibration" then Some("calibration_end: 1")
    else None
  }

  /** The commands whose truncated replies drop the link. */
  predicate IsFramed(line: string) {
    || line == "pid_diag" || StartsWith(line, "pid_diag ") || line == "barometer"
    || line == "storage" || line == "flash_info"
    || StartsWith(line, "sd ") || StartsWith(line, "blackbox ")
    || line == "diff all" || line == "dump all" || line == "sensors"
    || line == "calibration" || line == "timing" || line == "loop_rate"
    || line == "mixer" || line == "ports" || line == "modes"
    || StartsWith(line, "mode_range ") || StartsWith(line, "control_source ")
  }

  predicate IsSave(line: string) { line == "save" }

  /** Whether a rejection also disconnects. */
  predicate DropsLink(line: string, reason: Reason) {
    IsSave(line) || (IsFramed(line) && reason == TerminatorMissing)
  }

  /** Every command with an end marker is in the list of commands that drop the link. */
  lemma MarkersAreFramed(line: string)
    ensures EndMarkerOf(line).Some? <==> IsFramed(line)
  {
    if StartsWith(line, "sd read") { assert line[..3] == "sd "; }
  }

  // ---------------------------------------------------------------- the steps

  predicate HasCollector(t: Talk) { t.collector.Some? && t.collector.value < |t.commands| }

  /** `detachPort`: the handler fields are removed from the port, then cleared. */
  function Detach(l: Link, port: Option<nat>): Link {
    if port.None? then l
    else l.(attached := if l.slot == port then l.attached - {port.value} else l.attached, slot := None)
  }

  function Await(c: Client, work: Pending): Client {
    c.(session := c.session.(pending := c.session.pending + multiset{work}))
  }

  function Done(c: Client, work: Pending): Client {
    c.(session := c.session.(pending := c.session.pending - multiset{work}))
  }

  function WithStatus(c: Client, status: Status): Client { c.(session := c.session.(status := status)) }

  /** The end of `disconnect`. */
  function Cleared(c: Client): Client { WithStatus(c.(talk := c.talk.(lineBuf := "")), Disconnected) }

  /** The port and its handlers are let go of, on purpose. */
  function LetGo(c: Client): Client {
    c.(link := Detach(c.link.(port := None), c.link.port), session := c.session.(intentionalClose := true))
  }

  /** `disconnect` once no collector is left: the port is let go of, and closed if it is open. */
  function Release(c: Client, resume: bool): Client {
    if PortIsOpen(c.link) then Await(Unopened(LetGo(c), c.link.port.value), Closing(resume))
    else if resume then Await(Cleared(LetGo(c)), Resuming)
    else Cleared(LetGo(c))
  }

  function Unopened(c: Client, port: nat): Client { c.(link := c.link.(open := c.link.open - {port})) }

  /** The collector now reads `view`; if that settles it, it is let go of, and a rejection may
    * disconnect. */
  function Take(c: Client, view: View, idle: bool): Client
    requires HasCollector(c.talk)
  {
    var k := c.talk.collector.value;
    var command := c.talk.commands[k];
    var t := c.talk.(commands := c.talk.commands[k := command.(view := view, idle := idle)],
                     collector := if view.outcome.Some? then None else Some(k));
    var c' := c.(talk := t);
    if view.outcome.Some? && view.outcome.value.Rejected? && DropsLink(command.line, view.outcome.value.reason)
    then Release(c', false)
    else c'
  }

  /** `collector.cancel` */
  function CancelCollector(c: Client, why: string): Client {
    if HasCollector(c.talk) then
      var command := c.talk.commands[c.talk.collector.value];
      if command.view.outcome.Some? then c.(talk := c.talk.(collector := None))
      else Take(c, command.view.(outcome := Some(Rejected(Cancelled(why)))), command.idle)
    else c
  }

  function AfterDisconnect(c: Client, resume: bool): Client {
    Release(CancelCollector(c.(session := c.session.(intentionalClose := true)), "disconnected"), resume)
  }

  function PortIsOpen(l: Link): bool { l.port.Some? && l.port.value in l.open }

  function AfterSend(c: Client, line: string, maxChars: nat): Client {
    if !PortIsOpen(c.link) || c.session.status != Connected || c.talk.collector.Some? then c
    else
      var command := Command(line, maxChars, c.link.port.value, View("", None), false);
      c.(talk := c.talk.(commands := c.talk.commands + [command],
                         collector := Some(|c.talk.commands|),
                         sent := c.talk.sent + [Trim(line)], wire := c.talk.wire + [Trim(line) + "\n"]))
  }

  /** `onData` */
  function AfterData(c: Client, chunk: string): Client {
    var c' := Heard(c, chunk);
    var text := c'.talk.lineBuf + chunk;
    c'.(talk := c'.talk.(lineBuf := Rest(text), lines := c'.talk.lines + Complete(text)))
  }

  /** The collector's share of a chunk. */
  function Heard(c: Client, chunk: string): Client {
    if HasCollector(c.talk) then
      var command := c.talk.commands[c.talk.collector.value];
      Take(c, AfterPush(EndMarkerOf(command.line), command.maxChars, command.view, chunk), true)
    else c
  }

  function AfterHardTimer(c: Client): Client {
    if HasCollector(c.talk) then
      var command := c.talk.commands[c.talk.collector.value];
      Take(c, AfterTimeout(EndMarkerOf(command.line), command.view), command.idle)
    else c
  }

  function AfterIdleTimer(c: Client): Client {
    if HasCollector(c.talk) then
      var command := c.talk.commands[c.talk.collector.value];
      if command.idle && EndMarkerOf(command.line).None? && command.view.outcome.None? then
        Take(c, command.view.(outcome := Some(Resolved(command.view.text))), true)
      else c
    else c
  }

  /** `connect` up to the opening of the port. */
  function BeginConnect(c: Client): Client { Await(Restarted(c), Opening) }

  function Restarted(c: Client): Client {
    c.(talk := c.talk.(sent := []),
       session := c.session.(intentionalClose := false, attempt := 0, hasLast := true, status := Connecting))
  }

  function AfterConnect(c: Client): Client {
    if PortIsOpen(c.link) then AfterDisconnect(c, true) else BeginConnect(c)
  }

  /** The opened port is a new one. */
  function AfterOpened(c: Client): Client {
    var p := c.link.count;
    WithStatus(c.(link := Link(Some(p), Some(p), c.link.attached + {p}, c.link.open + {p}, p + 1)), Connected)
  }

  /** `onPortClosed` */
  function AfterPortClosed(c: Client): Client {
    WithoutPort(CancelCollector(c.(link := Detach(c.link, c.link.port).(port := None)), "port closed"))
  }

  /** Whether a reconnect is tried. */
  function WithoutPort(c: Client): Client {
    if c.session.intentionalClose then WithStatus(c, Disconnected)
    else if c.reconnect && c.session.hasLast && c.session.attempt < c.maxAttempts then
      Await(c.(session := c.session.(status := Reconnecting, attempt := c.session.attempt + 1)), Pausing)
    else WithStatus(c, Disconnected)
  }

  function Next(c: Client, input: Input): Client {
    match input
    case SendRaw(line, maxChars) => AfterSend(c, line, maxChars)
    case Received(port, chunk) => if port in c.link.attached then AfterData(c, chunk) else c
    case HardTimer => AfterHardTimer(c)
    case IdleTimer => AfterIdleTimer(c)
    case Connect => AfterConnect(c)
    case Disconnect => AfterDisconnect(c, false)
    case PortClosed(port) =>
      if port in c.link.open then
        var c' := Unopened(c, port);
        if port in c.link.attached then AfterPortClosed(c') else c'
      else c
    case PortError(port) => if port in c.link.attached then WithStatus(c, Failed) else c
    case Closed(resume) =>
      if Closing(resume) in c.session.pending then
        var c' := Cleared(Done(c, Closing(resume)));
        if resume then BeginConnect(c') else c'
      else c
    case Resumed => if Resuming in c.session.pending then BeginConnect(Done(c, Resuming)) else c
    case Opened => if Opening in c.session.pending then AfterOpened(Done(c, Opening)) else c
    case OpenFailed =>
      if Opening in c.session.pending then
        var c' := Done(c, Opening);
        WithStatus(c'.(link := c'.link.(port := None)), Failed)
      else c
    case PauseOver =>
      if Pausing in c.session.pending then
        var c' := Done(c, Pausing);
        if c'.session.intentionalClose || !c'.session.hasLast then c' else AfterConnect(c')
      else c
  }

  function Start(reconnect: bool, maxAttempts: nat): Client {
    Client(Link(None, None, {}, {}, 0), Talk(None, [], "", [], [], []),
           Session(Disconnected, false, false, 0, multiset{}), reconnect, maxAttempts)
  }

  function Run(c: Client, inputs: seq<Input>): Client {
    if inputs == [] then c else Next(Run(c, inputs[..|inputs| - 1]), inputs[|inputs| - 1])
  }

  // ---------------------------------------------------------------- what every step keeps

  /** The commands without an outcome are exactly the one the collector belongs to. */
  predicate OneOutstanding(t: Talk) {
    && (t.collector.Some? ==> t.collector.value < |t.commands|)
    && forall k :: 0 <= k < |t.commands| ==> (t.commands[k].view.outcome.None? <==> t.collector == Some(k))
  }

  /** Later commands: settled ones are as they were, the others have the same line and at least the
    * same text. */
  predicate Extends(a: seq<Command>, b: seq<Command>) {
    |a| <= |b| && forall k :: 0 <= k < |a| ==> Continues(a[k], b[k])
  }

  predicate Continues(a: Command, b: Command) {
    (a.view.outcome.Some? ==> b == a) && b.line == a.line && b.port == a.port && a.view.text <= b.view.text
  }

  /** Each command accepted was written once, and nothing else was. */
  predicate WrittenOnce(t: Talk) {
    |t.wire| == |t.commands| && forall k :: 0 <= k < |t.commands| ==> t.wire[k] == Trim(t.commands[k].line) + "\n"
  }

  /** Command `k` takes in this chunk: it is the outstanding one and the chunk still fits. */
  predicate Hears(c: Client, input: Input, k: nat) {
    && input.Received? && input.port in c.link.attached && c.talk.collector == Some(k) && k < |c.talk.commands|
    && |c.talk.commands[k].view.text| + |input.chunk| <= c.talk.commands[k].maxChars
  }

  /** What command `k` has heard after the event. */
  function TextAfter(c: Client, input: Input, k: nat): string {
    (if k < |c.talk.commands| then c.talk.commands[k].view.text else "")
    + if Hears(c, input, k) then input.chunk else ""
  }

  /** What one event does to the commands and the wire. */
  predicate StepOk(c: Client, input: Input, c': Client) {
    && OneOutstanding(c'.talk) && WrittenOnce(c'.talk) && Extends(c.talk.commands, c'.talk.commands)
    && forall k :: 0 <= k < |c'.talk.commands| ==> c'.talk.commands[k].view.text == TextAfter(c, input, k)
  }

  lemma ReleaseKeeps(c: Client, resume: bool)
    ensures var r := Release(c, resume).talk; r == c.talk || r == c.talk.(lineBuf := "")
    ensures Release(c, resume).link.port.None? && Release(c, resume).session.intentionalClose
  {
  }

  lemma TakeKeeps(c: Client, view: View, idle: bool)
    requires OneOutstanding(c.talk) && HasCollector(c.talk)
    ensures var t := Take(c, view, idle).talk; var k := c.talk.collector.value;
      && OneOutstanding(t) && t.wire == c.talk.wire && t.collector == (if view.outcome.Some? then None else Some(k))
      && t.commands == c.talk.commands[k := c.talk.commands[k].(view := view, idle := idle)]
  {
    hide Release, DropsLink;
    var k := c.talk.collector.value;
    var command := c.talk.commands[k];
    var t := c.talk.(commands := c.talk.commands[k := command.(view := view, idle := idle)],
                     collector := if view.outcome.Some? then None else Some(k));
    ReleaseKeeps(c.(talk := t), false);
  }

  /** An event in which the outstanding command only changes by `view`. */
  lemma TakeIsOk(c: Client, view: View, idle: bool, input: Input)
    requires OneOutstanding(c.talk) && WrittenOnce(c.talk) && HasCollector(c.talk)
    requires view.text == TextAfter(c, input, c.talk.collector.value)
    ensures StepOk(c, input, Take(c, view, idle))
  {
    hide Take, Hears;
    TakeKeeps(c, view, idle);
    OnlyCollectorHears(c, input);
  }

  lemma OnlyCollectorHears(c: Client, input: Input)
    ensures forall k: nat :: Hears(c, input, k) ==> c.talk.collector == Some(k)
  {
  }

  /** Whatever else an event does, it is fine once the commands, collector and wire are. */
  lemma SameTalk(c: Client, input: Input, c': Client, c'': Client)
    requires StepOk(c, input, c')
    requires c''.talk.commands == c'.talk.commands && c''.talk.collector == c'.talk.collector
        && c''.talk.wire == c'.talk.wire
    ensures StepOk(c, input, c'')
  {
    hide Extends, Hears, TextAfter;
  }

  lemma NothingHeard(c: Client, input: Input)
    requires OneOutstanding(c.talk) && WrittenOnce(c.talk) && (forall k: nat :: !Hears(c, input, k))
    ensures StepOk(c, input, c)
  {
    hide Hears;
  }

  lemma CancelIsOk(c: Client, why: string, input: Input)
    requires OneOutstanding(c.talk) && WrittenOnce(c.talk) && !input.Received?
    ensures StepOk(c, input, CancelCollector(c, why)) && CancelCollector(c, why).talk.collector.None?
  {
    hide Take, StepOk;
    NothingHeard(c, input);
    if HasCollector(c.talk) {
      var command := c.talk.commands[c.talk.collector.value];
      TakeKeeps(c, command.view.(outcome := Some(Rejected(Cancelled(why)))), command.idle);
      TakeIsOk(c, command.view.(outcome := Some(Rejected(Cancelled(why)))), command.idle, input);
    }
  }

  lemma DisconnectIsOk(c: Client, resume: bool, input: Input)
    requires OneOutstanding(c.talk) && WrittenOnce(c.talk) && !input.Received?
    ensures StepOk(c, input, AfterDisconnect(c, resume)) && AfterDisconnect(c, resume).talk.collector.None?
  {
    hide StepOk, CancelCollector, Release, OneOutstanding, WrittenOnce;
    var c0 := c.(session := c.session.(intentionalClose := true));
    CancelIsOk(c0, "disconnected", input);
    var c1 := CancelCollector(c0, "disconnected");
    SameStart(c0, c, input, c1);
    ReleaseKeeps(c1, resume);
    SameTalk(c, input, c1, Release(c1, resume));
  }

  lemma SameStart(c0: Client, c: Client, input: Input, c': Client)
    requires StepOk(c0, input, c') && c0.talk == c.talk && !input.Received?
    ensures StepOk(c, input, c')
  {
  }

  lemma SendIsOk(c: Client, line: string, maxChars: nat)
    requires OneOutstanding(c.talk) && WrittenOnce(c.talk)
    ensures StepOk(c, SendRaw(line, maxChars), AfterSend(c, line, maxChars))
  {
    hide Trim;
  }

  lemma DataIsOk(c: Client, port: nat, chunk: string)
    requires OneOutstanding(c.talk) && WrittenOnce(c.talk) && port in c.link.attached
    ensures StepOk(c, Received(port, chunk), AfterData(c, chunk))
  {
    hide StepOk, Take, EndMarkerOf, HasStop, Complete, Rest;
    var input := Received(port, chunk);
    if HasCollector(c.talk) {
      var command := c.talk.commands[c.talk.collector.value];
      var v := AfterPush(EndMarkerOf(command.line), command.maxChars, command.view, chunk);
      assert v.text == TextAfter(c, input, c.talk.collector.value);
      TakeIsOk(c, v, true, input);
    } else {
      NothingHeard(c, input);
    }
    SameTalk(c, input, Heard(c, chunk), AfterData(c, chunk));
  }

  lemma TimersAreOk(c: Client)
    requires OneOutstanding(c.talk) && WrittenOnce(c.talk)
    ensures StepOk(c, HardTimer, AfterHardTimer(c)) && StepOk(c, IdleTimer, AfterIdleTimer(c))
  {
    hide StepOk, Take, EndMarkerOf;
    NothingHeard(c, HardTimer);
    NothingHeard(c, IdleTimer);
    if HasCollector(c.talk) {
      var command := c.talk.commands[c.talk.collector.value];
      TakeIsOk(c, AfterTimeout(EndMarkerOf(command.line), command.view), command.idle, HardTimer);
      TakeIsOk(c, command.view.(outcome := Some(Resolved(command.view.text))), true, IdleTimer);
    }
  }

  lemma PortClosedIsOk(c: Client, port: nat)
    requires OneOutstanding(c.talk) && WrittenOnce(c.talk)
    ensures StepOk(c, PortClosed(port), Next(c, PortClosed(port)))
  {
    hide StepOk, CancelCollector, OneOutstanding, WrittenOnce;
    var input := PortClosed(port);
    NothingHeard(c, input);
    var c1 := c.(link := c.link.(open := c.link.open - {port}));
    var c2 := c1.(link := Detach(c1.link, c1.link.port).(port := None));
    CancelIsOk(c2, "port closed", input);
    SameStart(c2, c, input, CancelCollector(c2, "port closed"));
    SameTalk(c, input, CancelCollector(c2, "port closed"), AfterPortClosed(c1));
    SameTalk(c, input, c, c1);
  }

  /** Every event: at most one command is outstanding, a settled command never changes again, a chunk
    * reaches no command but the outstanding one, and only a `sendRaw` writes. */
  lemma StepIsOk(c: Client, input: Input)
    requires OneOutstanding(c.talk) && WrittenOnce(c.talk)
    ensures StepOk(c, input, Next(c, input))
  {
    hide StepOk, AfterSend, AfterData, AfterHardTimer, AfterIdleTimer, AfterDisconnect, AfterPortClosed,
         OneOutstanding, WrittenOnce;
    if !input.Received? { NothingHeard(c, input); }
    match input
    case SendRaw(line, maxChars) => SendIsOk(c, line, maxChars);
    case Received(port, chunk) =>
      if port in c.link.attached { DataIsOk(c, port, chunk); } else { NothingHeard(c, input); }
    case HardTimer => TimersAreOk(c);
    case IdleTimer => TimersAreOk(c);
    case Connect =>
      DisconnectIsOk(c, true, input);
      SameTalk(c, input, c, BeginConnect(c));
    case Disconnect => DisconnectIsOk(c, false, input);
    case PortClosed(port) => PortClosedIsOk(c, port);
    case PauseOver =>
      var c' := Done(c, Pausing);
      DisconnectIsOk(c', true, input);
      SameStart(c', c, input, AfterDisconnect(c', true));
      SameTalk(c, input, c, c');
      SameTalk(c, input, c, BeginConnect(c'));
    case _ => SameTalk(c, input, c, Next(c, input));
  }

  // ---------------------------------------------------------------- whole runs

  lemma {:induction false} RunIsOk(reconnect: bool, maxAttempts: nat, inputs: seq<Input>)
    ensures var t := Run(Start(reconnect, maxAttempts), inputs).talk; OneOutstanding(t) && WrittenOnce(t)
  {
    hide Next, OneOutstanding, WrittenOnce;
    if inputs == [] {
      StartIsOk(reconnect, maxAttempts);
    } else {
      RunIsOk(reconnect, maxAttempts, inputs[..|inputs| - 1]);
      StepIsOk(Run(Start(reconnect, maxAttempts), inputs[..|inputs| - 1]), inputs[|inputs| - 1]);
    }
  }

  lemma StartIsOk(reconnect: bool, maxAttempts: nat)
    ensures var t := Start(reconnect, maxAttempts).talk; OneOutstanding(t) && WrittenOnce(t)
  {
  }

  lemma RunSplits(c: Client, before: seq<Input>, input: Input)
    ensures Run(c, before + [input]) == Next(Run(c, before), input)
  {
    hide Next;
    assert (before + [input])[..|before|] == before;
  }

  /** Settling is for good: in every run, whatever follows, a command that is settled stays exactly as
    * it settled, and the others only gain text. */
  lemma {:induction false} SettledForGood(reconnect: bool, maxAttempts: nat, before: seq<Input>, more: seq<Input>)
    ensures Extends(Run(Start(reconnect, maxAttempts), before).talk.commands,
                    Run(Start(reconnect, maxAttempts), before + more).talk.commands)
    decreases |more|
  {
    hide Next, OneOutstanding, WrittenOnce;
    var start := Start(reconnect, maxAttempts);
    if more == [] {
      assert before + more == before;
    } else {
      var front, last := more[..|more| - 1], more[|more| - 1];
      SettledForGood(reconnect, maxAttempts, before, front);
      assert before + more == (before + front) + [last];
      RunSplits(start, before + front, last);
      RunIsOk(reconnect, maxAttempts, before + front);
      StepIsOk(Run(start, before + front), last);
    }
  }

  /** The chunks of a run that arrived, on a port we listen to, while command `k` was outstanding and
    * that fitted its limit. */
  function HeardBy(c: Client, inputs: seq<Input>, k: nat): string {
    if inputs == [] then ""
    else
      var front, last := inputs[..|inputs| - 1], inputs[|inputs| - 1];
      HeardBy(c, front, k) + if Hears(Run(c, front), last, k) then last.chunk else ""
  }

  /** Attribution: in every run each command's text is exactly the chunks received while it was the one
    * outstanding; no chunk is heard by two commands. */
  lemma {:induction false} TextIsWhatWasHeard(reconnect: bool, maxAttempts: nat, inputs: seq<Input>, k: nat)
    requires k < |Run(Start(reconnect, maxAttempts), inputs).talk.commands|
    ensures Run(Start(reconnect, maxAttempts), inputs).talk.commands[k].view.text
        == HeardBy(Start(reconnect, maxAttempts), inputs, k)
  {
    hide Next, OneOutstanding, WrittenOnce, Hears;
    if inputs != [] {
      var front := inputs[..|inputs| - 1];
      var was := Run(Start(reconnect, maxAttempts), front);
      RunIsOk(reconnect, maxAttempts, front);
      StepIsOk(was, inputs[|inputs| - 1]);
      if k < |was.talk.commands| {
        TextIsWhatWasHeard(reconnect, maxAttempts, front, k);
      } else {
        NotHeardYet(reconnect, maxAttempts, front, k);
        OnlyCollectorHears(was, inputs[|inputs| - 1]);
      }
    }
  }

  lemma {:induction false} NotHeardYet(reconnect: bool, maxAttempts: nat, inputs: seq<Input>, k: nat)
    requires |Run(Start(reconnect, maxAttempts), inputs).talk.commands| <= k
    ensures HeardBy(Start(reconnect, maxAttempts), inputs, k) == ""
  {
    hide Next, OneOutstanding, WrittenOnce;
    if inputs != [] {
      var front := inputs[..|inputs| - 1];
      RunIsOk(reconnect, maxAttempts, front);
      StepIsOk(Run(Start(reconnect, maxAttempts), front), inputs[|inputs| - 1]);
      NotHeardYet(reconnect, maxAttempts, front, k);
    }
  }

  // ---------------------------------------------------------------- truncated replies

  /** No port and no command: nothing can be sent or heard. */
  predicate Quiet(c: Client) { c.link.port.None? && c.talk.collector.None? }

  lemma QuietStep(c: Client, input: Input)
    requires Quiet(c) && !input.Opened?
    ensures Quiet(Next(c, input)) && Next(c, input).talk.commands == c.talk.commands
        && Next(c, input).talk.wire == c.talk.wire
  {
    hide EndMarkerOf, Complete, Rest;
  }

  lemma {:induction false} QuietRun(c: Client, inputs: seq<Input>)
    requires Quiet(c) && forall i :: 0 <= i < |inputs| ==> !inputs[i].Opened?
    ensures var after := Run(c, inputs);
      Quiet(after) && after.talk.commands == c.talk.commands && after.talk.wire == c.talk.wire
  {
    hide Next, Quiet;
    if inputs != [] {
      QuietRun(c, inputs[..|inputs| - 1]);
      QuietStep(Run(c, inputs[..|inputs| - 1]), inputs[|inputs| - 1]);
    }
  }

  /** When a chunk or a timer gets the outstanding command rejected, the link is dropped exactly for
    * `save` and for framed commands whose end marker is missing; otherwise it is as it was. */
  lemma RejectionDrops(c: Client, input: Input, k: nat, reason: Reason)
    requires OneOutstanding(c.talk) && c.talk.collector == Some(k) && c.link.port.Some?
    requires input.Received? || input.HardTimer? || input.IdleTimer?
    requires Next(c, input).talk.commands[k].view.outcome == Some(Rejected(reason))
    ensures DropsLink(c.talk.commands[k].line, reason) <==> Quiet(Next(c, input))
    ensures !DropsLink(c.talk.commands[k].line, reason) ==>
        Next(c, input).link == c.link && Next(c, input).session == c.session
    ensures reason == Overflow || reason == TerminatorMissing || reason == EmptyTimeout
  {
    hide EndMarkerOf, DropsLink, Release, HasStop, Complete, Rest;
    var command := c.talk.commands[k];
    if input.Received? && input.port in c.link.attached {
      TakeDrops(c, AfterPush(EndMarkerOf(command.line), command.maxChars, command.view, input.chunk), true, k);
    } else if input.HardTimer? {
      TakeDrops(c, AfterTimeout(EndMarkerOf(command.line), command.view), command.idle, k);
    } else {
      TakeDrops(c, command.view.(outcome := Some(Resolved(command.view.text))), true, k);
    }
  }

  lemma TakeDrops(c: Client, view: View, idle: bool, k: nat)
    requires OneOutstanding(c.talk) && c.talk.collector == Some(k) && c.link.port.Some?
    ensures var r := Take(c, view, idle);
      && r.talk.commands[k].view == view
      && (Quiet(r) <==>
            && view.outcome.Some? && view.outcome.value.Rejected?
            && DropsLink(c.talk.commands[k].line, view.outcome.value.reason))
      && (view.outcome.Some? && view.outcome.value.Rejected? && !Quiet(r) ==>
          r.link == c.link && r.session == c.session)
  {
    hide Release, DropsLink;
    var command := c.talk.commands[k];
    var t := c.talk.(commands := c.talk.commands[k := command.(view := view, idle := idle)],
                     collector := if view.outcome.Some? then None else Some(k));
    ReleaseKeeps(c.(talk := t), false);
  }

  /** A length overflow on `sd read` is rejected and the link stays up: the run connects, sends with a
    * limit of four characters and receives five. */
  lemma OverflowKeepsLink()
    ensures var c := Run(Start(false, 0), [Connect, Opened, SendRaw("sd read 0", 4), Received(0, "12345")]);
      && IsFramed("sd read 0")
      && |c.talk.commands| == 1 && c.talk.commands[0].view.outcome == Some(Rejected(Overflow))
      && PortIsOpen(c.link) && c.link.attached == {0} && c.session.status == Connected
  {
    assert EndMarkerOf("sd read 0").Some? && !IsSave("sd read 0");
    hide EndMarkerOf, IsFramed, IsSave;
    MarkersAreFramed("sd read 0");
    FramedOverflow("sd read 0");
  }

  lemma FramedOverflow(line: string)
    requires !IsSave(line) && EndMarkerOf(line).Some?
    ensures var c := Run(Start(false, 0), [Connect, Opened, SendRaw(line, 4), Received(0, "12345")]);
      && |c.talk.commands| == 1 && c.talk.commands[0].view.outcome == Some(Rejected(Overflow))
      && PortIsOpen(c.link) && c.link.attached == {0} && c.session.status == Connected
  {
    hide Next;
    var c0 := Start(false, 0);
    RunFour(c0, Connect, Opened, SendRaw(line, 4), Received(0, "12345"));
    OpensFirst(c0);
    SendsFirst(Next(Next(c0, Connect), Opened), line);
    Overflows(Next(Next(Next(c0, Connect), Opened), SendRaw(line, 4)), line);
  }

  lemma RunFour(c: Client, a: Input, b: Input, d: Input, e: Input)
    ensures Run(c, [a, b, d, e]) == Next(Next(Next(Next(c, a), b), d), e)
  {
    hide Next;
    RunSplits(c, [], a);
    RunSplits(c, [a], b);
    RunSplits(c, [a, b], d);
    RunSplits(c, [a, b, d], e);
    assert Run(c, []) == c;
    hide Run;
    assert [a, b, d, e] == [a, b, d] + [e] && [a, b, d] == [a, b] + [d];
    assert [a, b] == [a] + [b] && [a] == [] + [a];
  }

  lemma OpensFirst(c: Client)
    requires c == Start(false, 0)
    ensures var r := Next(Next(c, Connect), Opened);
      r.link == Link(Some(0), Some(0), {0}, {0}, 1) && r.talk == c.talk && r.session.status == Connected
  {
  }

  lemma SendsFirst(c: Client, line: string)
    requires c.link == Link(Some(0), Some(0), {0}, {0}, 1) && c.session.status == Connected
    requires c.talk == Talk(None, [], "", [], [], [])
    ensures var r := Next(c, SendRaw(line, 4));
      && r.link == c.link && r.session == c.session && r.talk.collector == Some(0)
      && r.talk.commands == [Command(line, 4, 0, View("", None), false)]
  {
    hide Trim;
  }

  lemma Overflows(c: Client, line: string)
    requires c.link == Link(Some(0), Some(0), {0}, {0}, 1) && !IsSave(line)
    requires c.talk.collector == Some(0) && c.talk.commands == [Command(line, 4, 0, View("", None), false)]
    ensures var r := Next(c, Received(0, "12345"));
      && r.link == c.link && r.session == c.session
      && |r.talk.commands| == 1 && r.talk.commands[0].view.outcome == Some(Rejected(Overflow))
  {
    hide EndMarkerOf, IsFramed, Complete, Rest, HasStop;
  }

  /** A framed command whose timer runs out is rejected, and until a port is opened anew no byte reaches
    * any command and nothing is written, whatever else happens. */
  lemma TruncatedReplyIsQuarantined(c: Client, k: nat, more: seq<Input>)
    requires OneOutstanding(c.talk) && c.talk.collector == Some(k) && IsFramed(c.talk.commands[k].line)
    requires forall i :: 0 <= i < |more| ==> !more[i].Opened?
    ensures var dropped := Next(c, HardTimer);
      && dropped.talk.commands[k].view.outcome == Some(Rejected(TerminatorMissing))
      && Run(dropped, more).talk.commands == dropped.talk.commands && Run(dropped, more).talk.wire == dropped.talk.wire
      && Run(dropped, more).talk.collector.None?
  {
    hide EndMarkerOf, IsFramed, Release;
    var command := c.talk.commands[k];
    MarkersAreFramed(command.line);
    var view := AfterTimeout(EndMarkerOf(command.line), command.view);
    TakeKeeps(c, view, command.idle);
    var t := c.talk.(commands := c.talk.commands[k := command.(view := view)], collector := None);
    ReleaseKeeps(c.(talk := t), false);
    QuietRun(Next(c, HardTimer), more);
  }

  // ---------------------------------------------------------------- late bytes of an old link

  /** Our handlers are on the current port and no other, and the outstanding command was written to it. */
  predicate Clean(c: Client) {
    && c.link.attached == (if c.link.port.Some? then {c.link.port.value} else {})
    && (c.link.port.Some? ==> c.link.slot == c.link.port && c.link.port.value < c.link.count)
    && (HasCollector(c.talk) ==> c.link.port == Some(c.talk.commands[c.talk.collector.value].port))
  }

  /** An opening ends while a port is still held. */
  predicate Overlaps(c: Client, input: Input) {
    (input.Opened? || input.OpenFailed?) && Opening in c.session.pending && c.link.port.Some?
  }

  lemma ReleaseIsClean(c: Client, resume: bool)
    requires Clean(c) && c.talk.collector.None?
    ensures Clean(Release(c, resume))
  {
  }

  lemma TakeIsClean(c: Client, view: View, idle: bool)
    requires Clean(c) && HasCollector(c.talk)
    ensures Clean(Take(c, view, idle))
  {
    hide Release, DropsLink;
    var k := c.talk.collector.value;
    var t := c.talk.(commands := c.talk.commands[k := c.talk.commands[k].(view := view, idle := idle)],
                     collector := if view.outcome.Some? then None else Some(k));
    if view.outcome.Some? { ReleaseIsClean(c.(talk := t), false); }
  }

  lemma CancelIsClean(c: Client, why: string)
    requires Clean(c) && OneOutstanding(c.talk)
    ensures Clean(CancelCollector(c, why)) && CancelCollector(c, why).talk.collector.None?
  {
    hide Take, Clean;
    if HasCollector(c.talk) {
      var command := c.talk.commands[c.talk.collector.value];
      TakeIsClean(c, command.view.(outcome := Some(Rejected(Cancelled(why)))), command.idle);
      TakeKeeps(c, command.view.(outcome := Some(Rejected(Cancelled(why)))), command.idle);
    }
  }

  lemma DisconnectIsClean(c: Client, resume: bool)
    requires Clean(c) && OneOutstanding(c.talk)
    ensures Clean(AfterDisconnect(c, resume))
  {
    hide CancelCollector, Release;
    var c0 := c.(session := c.session.(intentionalClose := true));
    CancelIsClean(c0, "disconnected");
    ReleaseIsClean(CancelCollector(c0, "disconnected"), resume);
  }

  lemma CollectorIsClean(c: Client, input: Input)
    requires Clean(c) && (input.Received? || input.HardTimer? || input.IdleTimer?)
    ensures Clean(Next(c, input))
  {
    hide Take, Clean, EndMarkerOf, HasStop, Complete, Rest;
    if HasCollector(c.talk) {
      var command := c.talk.commands[c.talk.collector.value];
      TakeIsClean(c, AfterTimeout(EndMarkerOf(command.line), command.view), command.idle);
      TakeIsClean(c, command.view.(outcome := Some(Resolved(command.view.text))), true);
      if input.Received? {
        TakeIsClean(c, AfterPush(EndMarkerOf(command.line), command.maxChars, command.view, input.chunk), true);
      }
    }
    if input.Received? && input.port in c.link.attached {
      BufferIsClean(Heard(c, input.chunk), AfterData(c, input.chunk));
    }
  }

  lemma BufferIsClean(c: Client, c': Client)
    requires Clean(c) && c'.link == c.link && c'.talk.commands == c.talk.commands
        && c'.talk.collector == c.talk.collector
    ensures Clean(c')
  {
  }

  lemma PortClosedIsClean(c: Client, port: nat)
    requires Clean(c) && OneOutstanding(c.talk)
    ensures Clean(Next(c, PortClosed(port)))
  {
    hide CancelCollector;
    var c1 := c.(link := c.link.(open := c.link.open - {port}));
    if port in c.link.open && port in c.link.attached {
      var c2 := c1.(link := Detach(c1.link, c1.link.port).(port := None));
      CancelWithoutPort(c2, "port closed");
    }
  }

  lemma CancelWithoutPort(c: Client, why: string)
    requires OneOutstanding(c.talk) && c.link.port.None? && c.link.attached == {}
    ensures Clean(CancelCollector(c, why))
  {
    hide DropsLink;
  }

  /** The handlers stay on the current port alone exactly while no opening ends with a port held. */
  lemma CleanExactly(c: Client, input: Input)
    requires Clean(c) && OneOutstanding(c.talk)
    ensures Clean(Next(c, input)) <==> !Overlaps(c, input)
  {
    hide AfterSend, AfterHardTimer, AfterIdleTimer, AfterData, AfterDisconnect, AfterPortClosed, OneOutstanding;
    match input
    case SendRaw(line, maxChars) => SendIsClean(c, line, maxChars);
    case Received(port, chunk) => CollectorIsClean(c, input);
    case HardTimer => CollectorIsClean(c, input);
    case IdleTimer => CollectorIsClean(c, input);
    case Connect => DisconnectIsClean(c, true);
    case Disconnect => DisconnectIsClean(c, false);
    case PortClosed(port) => PortClosedIsClean(c, port);
    case PauseOver => DisconnectIsClean(Done(c, Pausing), true);
    case Opened => OpenedIsClean(c);
    case _ =>
  }

  lemma SendIsClean(c: Client, line: string, maxChars: nat)
    requires Clean(c)
    ensures Clean(AfterSend(c, line, maxChars))
  {
    hide Trim;
  }

  lemma OpenedIsClean(c: Client)
    requires Clean(c)
    ensures Clean(Next(c, Opened)) <==> !Overlaps(c, Opened)
  {
    if c.link.port.Some? {
      assert c.link.port.value in AfterOpened(Done(c, Opening)).link.attached;
    }
  }

  predicate NeverOverlaps(c: Client, inputs: seq<Input>) {
    forall i :: 0 <= i < |inputs| ==> !Overlaps(Run(c, inputs[..i]), inputs[i])
  }

  lemma {:induction false} RunIsClean(reconnect: bool, maxAttempts: nat, inputs: seq<Input>)
    requires NeverOverlaps(Start(reconnect, maxAttempts), inputs)
    ensures Clean(Run(Start(reconnect, maxAttempts), inputs))
  {
    hide Next, Clean, Overlaps, OneOutstanding, WrittenOnce;
    if inputs == [] {
      StartIsClean(reconnect, maxAttempts);
    } else {
      var front := inputs[..|inputs| - 1];
      assert forall i :: 0 <= i < |front| ==> front[..i] == inputs[..i];
      RunIsClean(reconnect, maxAttempts, front);
      RunIsOk(reconnect, maxAttempts, front);
      CleanExactly(Run(Start(reconnect, maxAttempts), front), inputs[|inputs| - 1]);
    }
  }

  lemma StartIsClean(reconnect: bool, maxAttempts: nat)
    ensures Clean(Start(reconnect, maxAttempts))
  {
  }

  /** No late bytes: in every run in which no opening ends with a port held, a command hears only the
    * port it was written to, so what an old link still delivers never reaches a later command. */
  lemma NoLateBytes(reconnect: bool, maxAttempts: nat, inputs: seq<Input>, input: Input, k: nat)
    requires NeverOverlaps(Start(reconnect, maxAttempts), inputs)
    requires Hears(Run(Start(reconnect, maxAttempts), inputs), input, k)
    ensures input.port == Run(Start(reconnect, maxAttempts), inputs).talk.commands[k].port
  {
    hide Run;
    RunIsClean(reconnect, maxAttempts, inputs);
  }

  /** The handlers are on the current port alone throughout a run exactly when no opening ends with a
    * port held. */
  lemma CleanThroughout(reconnect: bool, maxAttempts: nat, inputs: seq<Input>)
    ensures var start := Start(reconnect, maxAttempts);
      NeverOverlaps(start, inputs) <==> forall i :: 0 <= i <= |inputs| ==> Clean(Run(start, inputs[..i]))
  {
    hide Next, Clean, Overlaps, OneOutstanding, WrittenOnce;
    var start := Start(reconnect, maxAttempts);
    if NeverOverlaps(start, inputs) {
      forall i | 0 <= i <= |inputs| ensures Clean(Run(start, inputs[..i])) {
        assert forall j :: 0 <= j < i ==> inputs[..i][..j] == inputs[..j];
        RunIsClean(reconnect, maxAttempts, inputs[..i]);
      }
    }
    if forall i :: 0 <= i <= |inputs| ==> Clean(Run(start, inputs[..i])) {
      forall i | 0 <= i < |inputs| ensures !Overlaps(Run(start, inputs[..i]), inputs[i]) {
        assert inputs[..i + 1] == inputs[..i] + [inputs[i]];
        RunSplits(start, inputs[..i], inputs[i]);
        RunIsOk(reconnect, maxAttempts, inputs[..i]);
        CleanExactly(Run(start, inputs[..i]), inputs[i]);
      }
    }
  }

  /** Two overlapping `connect`s: the first port's bytes reach a command written to the second. */
  lemma OverlappingConnectsMixPorts(line: string)
    ensures var inputs := [Connect, Connect, Opened, Opened, SendRaw(line, 9)];
      var c := Run(Start(false, 0), inputs);
      |c.talk.commands| == 1 && c.talk.commands[0].port == 1 && Hears(c, Received(0, "late"), 0)
  {
    hide Next, Hears, Run;
    var c0 := Start(false, 0);
    RunFive(c0, Connect, Connect, Opened, Opened, SendRaw(line, 9));
    TwoConnects(c0);
    OpensOnce(Next(Next(c0, Connect), Connect));
    OpensTwice(Next(Next(Next(c0, Connect), Connect), Opened));
    SendsOnce(Next(Next(Next(Next(c0, Connect), Connect), Opened), Opened), line);
  }

  lemma RunFive(c: Client, a: Input, b: Input, d: Input, e: Input, f: Input)
    ensures Run(c, [a, b, d, e, f]) == Next(Next(Next(Next(Next(c, a), b), d), e), f)
  {
    hide Next;
    RunFour(c, a, b, d, e);
    RunSplits(c, [a, b, d, e], f);
    hide Run;
    assert [a, b, d, e, f] == [a, b, d, e] + [f];
  }

  lemma TwoConnects(c: Client)
    requires c == Start(false, 0)
    ensures var r := Next(Next(c, Connect), Connect);
      r.link == c.link && r.talk == c.talk && r.session.pending[Opening] == 2
  {
  }

  lemma OpensOnce(c: Client)
    requires c.session.pending[Opening] == 2 && c.link == Link(None, None, {}, {}, 0)
    ensures var r := Next(c, Opened);
      r.link == Link(Some(0), Some(0), {0}, {0}, 1) && r.talk == c.talk && r.session.pending[Opening] == 1
  {
  }

  lemma OpensTwice(c: Client)
    requires c.session.pending[Opening] == 1 && c.link == Link(Some(0), Some(0), {0}, {0}, 1)
    ensures var r := Next(c, Opened);
      r.link == Link(Some(1), Some(1), {0, 1}, {0, 1}, 2) && r.talk == c.talk && r.session.status == Connected
  {
  }

  lemma SendsOnce(c: Client, line: string)
    requires c.link == Link(Some(1), Some(1), {0, 1}, {0, 1}, 2) && c.session.status == Connected
    requires c.talk == Talk(None, [], "", [], [], [])
    ensures var r := Next(c, SendRaw(line, 9));
      |r.talk.commands| == 1 && r.talk.commands[0].port == 1 && Hears(r, Received(0, "late"), 0)
  {
    hide Trim;
  }

  // ---------------------------------------------------------------- the client as an object

  class BobFlightCliClient {
    var port: Option<nat>
    /** The port whose handlers the handler fields hold. */
    var handlers: Option<nat>
    var attached: set<nat>
    var open: set<nat>
    var portCount: nat
    var status: Status
    var intentionalClose: bool
    var hasLastConnect: bool
    var reconnectAttempt: nat
    var pending: multiset<Pending>
    var collector: Option<nat>
    var commands: seq<Command>
    var lineBuf: string
    var lines: seq<string>
    var sentCommands: seq<string>
    var wire: seq<string>
    const reconnect: bool
    const maxAttempts: nat

    ghost function LinkNow(): Link
      reads `port, `handlers, `attached, `open, `portCount
    {
      Link(port, handlers, attached, open, portCount)
    }

    ghost function TalkNow(): Talk
      reads `collector, `commands, `lineBuf, `lines, `sentCommands, `wire
    {
      Talk(collector, commands, lineBuf, lines, sentCommands, wire)
    }

    ghost function SessionNow(): Session
      reads `status, `intentionalClose, `hasLastConnect, `reconnectAttempt, `pending
    {
      Session(status, intentionalClose, hasLastConnect, reconnectAttempt, pending)
    }

    ghost function Now(): Client
      reads this
    {
      Client(LinkNow(), TalkNow(), SessionNow(), reconnect, maxAttempts)
    }

    ghost predicate Valid()
      reads this
    {
      OneOutstanding(TalkNow()) && WrittenOnce(TalkNow())
    }

    constructor (reconnect: bool, maxAttempts: nat)
      ensures Valid() && Now() == Start(reconnect, maxAttempts)
    {
      this.reconnect, this.maxAttempts := reconnect, maxAttempts;
      port, handlers, attached, open, portCount := None, None, {}, {}, 0;
      status, intentionalClose, hasLastConnect, reconnectAttempt, pending := Disconnected, false, false, 0, multiset{};
      collector, commands, lineBuf, lines, sentCommands, wire := None, [], "", [], [], [];
    }

    method DetachPort(p: Option<nat>)
      modifies `handlers, `attached
      ensures LinkNow() == Detach(old(LinkNow()), p)
    {
      if p.None? { return; }
      if handlers == p { attached := attached - {p.value}; }
      handlers := None;
    }

    method LetGoOfPort()
      modifies `port, `handlers, `attached, `intentionalClose
      ensures Now() == LetGo(old(Now()))
    {
      intentionalClose := true;
      var p := port;
      ForgetPort();
      DetachPort(p);
    }

    /** The part of `disconnect` after the collector was cancelled. */
    method ReleasePort(resume: bool)
      modifies `port, `handlers, `attached, `open, `status, `intentionalClose, `pending, `lineBuf
      ensures Now() == Release(old(Now()), resume)
    {
      hide LetGo, Await;
      var p := port;
      LetGoOfPort();
      if p.Some? && p.value in open {
        open := open - {p.value};
        AddPending(Closing(resume));
        return;
      }
      ClearBuffer();
      if resume { AddPending(Resuming); }
    }

    method AddPending(work: Pending)
      modifies `pending
      ensures Now() == Await(old(Now()), work)
    {
      pending := pending + multiset{work};
    }

    method TakePending(work: Pending)
      modifies `pending
      ensures Now() == Done(old(Now()), work)
    {
      pending := pending - multiset{work};
    }

    /** The outstanding collector now reads `view`: the callbacks given to it let go of it when it
      * settles, and disconnect when a rejection calls for that. */
    method CollectorReads(view: View, idle: bool)
      requires collector.Some? && collector.value < |commands|
      modifies this
      ensures Now() == Take(old(Now()), view, idle)
    {
      hide DropsLink;
      var k := collector.value;
      var command := commands[k];
      commands := commands[k := command.(view := view, idle := idle)];
      if view.outcome.Some? {
        collector := None;
        if view.outcome.value.Rejected? && DropsLink(command.line, view.outcome.value.reason) { ReleasePort(false); }
      }
    }

    method CancelOutstanding(why: string)
      requires OneOutstanding(TalkNow())
      modifies this
      ensures Now() == CancelCollector(old(Now()), why)
    {
      hide Take;
      if collector.Some? {
        var command := commands[collector.value];
        CollectorReads(command.view.(outcome := Some(Rejected(Cancelled(why)))), command.idle);
      }
    }

    method CloseDown(resume: bool)
      requires OneOutstanding(TalkNow())
      modifies this
      ensures Now() == AfterDisconnect(old(Now()), resume)
    {
      hide CancelCollector, Release;
      intentionalClose := true;
      CancelOutstanding("disconnected");
      ReleasePort(resume);
    }

    method DisconnectNow()
      requires Valid()
      modifies this
      ensures Valid() && Now() == Next(old(Now()), Disconnect)
    {
      hide AfterDisconnect, OneOutstanding, WrittenOnce;
      StepIsOk(Now(), Disconnect);
      CloseDown(false);
    }

    /** `sendRaw`: true if the command was written and its collector is now outstanding. */
    method Send(line: string, maxChars: nat) returns (sent: bool)
      requires Valid()
      modifies `commands, `collector, `sentCommands, `wire
      ensures Valid() && Now() == Next(old(Now()), SendRaw(line, maxChars))
      ensures sent <==> old(PortIsOpen(LinkNow()) && status == Connected && collector.None?)
    {
      hide OneOutstanding, WrittenOnce, Trim, BeginConnect, AfterConnect, AfterData, AfterHardTimer, AfterIdleTimer;
      hide AfterDisconnect, AfterPortClosed, AfterOpened;
      StepIsOk(Now(), SendRaw(line, maxChars));
      if port.None? || port.value !in open || status != Connected { return false; }
      if collector.Some? { return false; }
      collector := Some(|commands|);
      commands := commands + [Command(line, maxChars, port.value, View("", None), false)];
      WriteLine(Trim(line));
      return true;
    }

    method WriteLine(wireCmd: string)
      modifies `sentCommands, `wire
      ensures TalkNow() == old(TalkNow()).(sent := old(sentCommands) + [wireCmd], wire := old(wire) + [wireCmd + "\n"])
    {
      sentCommands := sentCommands + [wireCmd];
      wire := wire + [wireCmd + "\n"];
    }

    method OnData(from: nat, chunk: string)
      requires Valid() && from in attached
      modifies this
      ensures Valid() && Now() == Next(old(Now()), Received(from, chunk))
    {
      hide WrittenOnce, Take, EndMarkerOf, AfterPush, Complete, Rest;
      StepIsOk(Now(), Received(from, chunk));
      if collector.Some? {
        var command := commands[collector.value];
        CollectorReads(AfterPush(EndMarkerOf(command.line), command.maxChars, command.view, chunk), true);
      }
      assert Now() == Heard(old(Now()), chunk);
      var text := lineBuf + chunk;
      lines := lines + Complete(text);
      lineBuf := Rest(text);
    }

    method HardTimerFires()
      requires Valid() && collector.Some?
      modifies this
      ensures Valid() && Now() == Next(old(Now()), HardTimer)
    {
      hide WrittenOnce, Take, EndMarkerOf, AfterTimeout;
      StepIsOk(Now(), HardTimer);
      var command := commands[collector.value];
      CollectorReads(AfterTimeout(EndMarkerOf(command.line), command.view), command.idle);
    }

    method IdleTimerFires()
      requires Valid() && collector.Some?
      modifies this
      ensures Valid() && Now() == Next(old(Now()), IdleTimer)
    {
      hide WrittenOnce, Take, EndMarkerOf;
      StepIsOk(Now(), IdleTimer);
      var command := commands[collector.value];
      if command.idle && EndMarkerOf(command.line).None? {
        CollectorReads(command.view.(outcome := Some(Resolved(command.view.text))), true);
      }
    }

    method StartConnect()
      modifies `sentCommands, `intentionalClose, `reconnectAttempt, `hasLastConnect, `status, `pending
      ensures Now() == BeginConnect(old(Now()))
    {
      hide Await;
      Restart();
      sentCommands := [];
      AddPending(Opening);
    }

    method Restart()
      modifies `intentionalClose, `reconnectAttempt, `hasLastConnect, `status
      ensures SessionNow() == old(SessionNow()).(intentionalClose := false, attempt := 0, hasLast := true,
                                                 status := Connecting)
    {
      intentionalClose := false;
      reconnectAttempt := 0;
      hasLastConnect := true;
      status := Connecting;
    }

    method ConnectNow()
      requires Valid()
      modifies this
      ensures Valid() && Now() == Next(old(Now()), Connect)
    {
      hide AfterDisconnect, BeginConnect, OneOutstanding, WrittenOnce;
      StepIsOk(Now(), Connect);
      if port.Some? && port.value in open { CloseDown(true); } else { StartConnect(); }
    }

    method OpenSucceeds()
      requires Valid() && Opening in pending
      modifies `port, `handlers, `attached, `open, `portCount, `status, `pending
      ensures Valid() && Now() == Next(old(Now()), Opened)
    {
      hide OneOutstanding, WrittenOnce, AfterOpened, Done, BeginConnect, AfterConnect, AfterSend, AfterData;
      hide AfterHardTimer, AfterIdleTimer, AfterDisconnect, AfterPortClosed;
      StepIsOk(Now(), Opened);
      TakePending(Opening);
      AdoptPort();
    }

    method AdoptPort()
      modifies `port, `handlers, `attached, `open, `portCount, `status
      ensures Now() == AfterOpened(old(Now()))
    {
      var p := portCount;
      TakeNewPort();
      AttachPort(p);
      SetStatus(Connected);
    }

    /** The opened port is the client's. */
    method TakeNewPort()
      modifies `port, `open, `portCount
      ensures LinkNow() == old(LinkNow()).(port := Some(old(portCount)), open := old(open) + {old(portCount)},
                                               count := old(portCount) + 1)
    {
      port := Some(portCount);
      open := open + {portCount};
      portCount := portCount + 1;
    }

    method AttachPort(p: nat)
      modifies `handlers, `attached
      ensures Now() == old(Now()).(link := old(LinkNow()).(slot := Some(p), attached := old(attached) + {p}))
    {
      handlers := Some(p);
      attached := attached + {p};
    }

    method SetStatus(s: Status)
      modifies `status
      ensures Now() == WithStatus(old(Now()), s)
    {
      status := s;
    }

    method OpenFails()
      requires Valid() && Opening in pending
      modifies `port, `status, `pending
      ensures Valid() && Now() == Next(old(Now()), OpenFailed)
    {
      hide OneOutstanding, WrittenOnce;
      StepIsOk(Now(), OpenFailed);
      hide Done, AfterOpened, BeginConnect, AfterConnect, AfterSend, AfterData, AfterHardTimer, AfterIdleTimer;
      hide AfterDisconnect, AfterPortClosed;
      TakePending(Opening);
      ForgetPort();
      SetStatus(Failed);
    }

    /** The error handler, which is on the port as long as the others are. */
    method OnPortError(p: nat)
      requires Valid() && p in attached
      modifies `status
      ensures Valid() && Now() == Next(old(Now()), PortError(p))
    {
      hide OneOutstanding, WrittenOnce;
      hide Done, AfterOpened, BeginConnect, AfterConnect, AfterSend, AfterData, AfterHardTimer, AfterIdleTimer;
      hide AfterDisconnect, AfterPortClosed;
      SetStatus(Failed);
    }

    method ForgetPort()
      modifies `port
      ensures Now() == old(Now()).(link := old(LinkNow()).(port := None))
    {
      port := None;
    }

    method CloseFinishes(resume: bool)
      requires Valid() && Closing(resume) in pending
      modifies this
      ensures Valid() && Now() == Next(old(Now()), Closed(resume))
    {
      hide OneOutstanding, WrittenOnce, BeginConnect;
      StepIsOk(Now(), Closed(resume));
      TakePending(Closing(resume));
      ClearBuffer();
      if resume { StartConnect(); }
    }

    /** The end of `disconnect`. */
    method ClearBuffer()
      modifies `lineBuf, `status
      ensures Now() == Cleared(old(Now()))
    {
      lineBuf := "";
      SetStatus(Disconnected);
    }

    method OnPortClosed(p: nat)
      requires Valid() && p in open && p in attached
      modifies this
      ensures Valid() && Now() == Next(old(Now()), PortClosed(p))
    {
      hide AfterPortClosed, OneOutstanding, WrittenOnce;
      StepIsOk(Now(), PortClosed(p));
      open := open - {p};
      HandleClosed();
    }

    method HandleClosed()
      requires OneOutstanding(TalkNow())
      modifies this
      ensures Now() == AfterPortClosed(old(Now()))
    {
      hide CancelCollector;
      DetachPort(port);
      ForgetPort();
      CancelOutstanding("port closed");
      AfterClose();
    }

    /** What follows once port and collector are gone. */
    method AfterClose()
      modifies `status, `reconnectAttempt, `pending
      ensures Now() == WithoutPort(old(Now()))
    {
      hide Await;
      if intentionalClose {
        SetStatus(Disconnected);
        return;
      }
      if reconnect && hasLastConnect && reconnectAttempt < maxAttempts {
        SetStatus(Reconnecting);
        reconnectAttempt := reconnectAttempt + 1;
        AddPending(Pausing);
        return;
      }
      SetStatus(Disconnected);
    }

    method PauseEnds()
      requires Valid() && Pausing in pending
      modifies this
      ensures Valid() && Now() == Next(old(Now()), PauseOver)
    {
      hide AfterDisconnect, BeginConnect, OneOutstanding, WrittenOnce;
      StepIsOk(Now(), PauseOver);
      TakePending(Pausing);
      if intentionalClose || !hasLastConnect { return; }
      if port.Some? && port.value in open { CloseDown(true); } else { StartConnect(); }
    }
  }
}
