/** client.ts: what a send, a lost port, a disconnect and the timers do to the session. */
module ClientSession {
  import opened Bytes
  import opened CliFraming
  import opened Collector
  import opened CliClient

  /** A line is accepted exactly when a port is open, the status is connected and no command is outstanding;
    * it is then written once, trimmed and ended by LF. Otherwise nothing changes. */
  lemma SendOutcome(c: Client, line: string, maxChars: nat)
    ensures var r := Next(c, SendRaw(line, maxChars));
      if
        && c.link.port.Some? && c.link.port.value in c.link.open
        && c.session.status == Connected && c.talk.collector.None?
      then
        && r.talk.wire == c.talk.wire + [Trim(line) + "\n"] && r.talk.sent == c.talk.sent + [Trim(line)]
        && r.talk.commands == c.talk.commands + [Command(line, maxChars, c.link.port.value, View("", None), false)]
        && r.talk.collector == Some(|c.talk.commands|) && r.link == c.link && r.session == c.session
      else r == c
  {
    hide Trim;
  }

  /** The command that is outstanding, if there is one. */
  predicate Outstanding(c: Client, k: nat) {
    c.talk.collector == Some(k) && k < |c.talk.commands| && c.talk.commands[k].view.outcome.None?
  }

  /** The hard timer: a framed command is rejected and the link is dropped; another one resolves with what it
    * has heard, or is rejected when it has heard nothing. */
  lemma HardTimerOutcome(c: Client, k: nat)
    requires Outstanding(c, k) && c.talk.commands[k].line != "save"
    ensures var r, text := Next(c, HardTimer), c.talk.commands[k].view.text;
      && r.talk.collector.None? && |r.talk.commands| == |c.talk.commands| && r.talk.commands[k].view.text == text
      && var outcome := r.talk.commands[k].view.outcome;
         if EndMarkerOf(c.talk.commands[k].line).Some? then
           outcome == Some(Rejected(TerminatorMissing)) && r.link.port.None? && r.session.intentionalClose
         else
           && r.link == c.link && r.session == c.session
           && outcome == Some(if text == "" then Rejected(EmptyTimeout) else Resolved(text))
  {
    MarkersAreFramed(c.talk.commands[k].line);
    hide EndMarkerOf, IsFramed, Release;
    ReleaseDrops(c.(talk := Settled(c, k, Rejected(TerminatorMissing))));
  }

  /** The idle timer: it runs only for a command without an end marker that has heard something, and resolves
    * it with what it has heard. */
  lemma IdleTimerOutcome(c: Client, k: nat)
    requires Outstanding(c, k)
    ensures var r, command := Next(c, IdleTimer), c.talk.commands[k];
      if command.idle && EndMarkerOf(command.line).None? then
        && r == c.(talk := Settled(c, k, Resolved(command.view.text)))
      else r == c
  {
    hide EndMarkerOf, IsFramed;
    var command := c.talk.commands[k];
    assert command.(idle := true) == command || !command.idle;
  }

  /** An error on the port in use shows in the status and changes nothing else; one of a port that was let go
    * of changes nothing. */
  lemma PortErrorOutcome(c: Client, p: nat)
    ensures Next(c, PortError(p)).session == if p in c.link.attached then c.session.(status := Failed) else c.session
    ensures Next(c, PortError(p)).link == c.link && Next(c, PortError(p)).talk == c.talk
  {
  }

  function Settled(c: Client, k: nat, outcome: Settlement): Talk
    requires k < |c.talk.commands|
  {
    var command := c.talk.commands[k];
    c.talk.(commands := c.talk.commands[k := command.(view := command.view.(outcome := Some(outcome)))],
            collector := None)
  }

  lemma ReleaseDrops(c: Client)
    ensures var r := Release(c, false);
      && r.link.port.None? && r.session.intentionalClose && r.talk.commands == c.talk.commands
      && r.talk.collector == c.talk.collector
  {
  }

  /** The port in use is lost without the client asking for it. */
  predicate Loses(c: Client, p: nat) {
    c.link.port == Some(p) && c.link.slot == Some(p) && p in c.link.attached && p in c.link.open
  }

  /** `save` is outstanding: its rejection disconnects, so the client does not come back. */
  ghost predicate Saving(c: Client) {
    exists k: nat :: Outstanding(c, k) && c.talk.commands[k].line == "save"
  }

  /** A lost port is given up with its handlers, and a reconnect is begun exactly when that is enabled, an
    * attempt is left, the client was not closing and no `save` was outstanding. */
  lemma LossOutcome(c: Client, p: nat)
    requires OneOutstanding(c.talk) && Loses(c, p)
    ensures var r := Next(c, PortClosed(p));
      && r.link.port.None? && p !in r.link.open && p !in r.link.attached && r.talk.collector.None?
      && (r.session.status == Reconnecting <==>
            && c.reconnect && c.session.hasLast && c.session.attempt < c.maxAttempts && !c.session.intentionalClose
            && !Saving(c))
      && (r.session.status != Reconnecting ==> r.session.status == Disconnected)
  {
    hide EndMarkerOf, IsFramed;
    var c' := c.(link := Link(None, None, c.link.attached - {p}, c.link.open - {p}, c.link.count));
    assert Next(c, PortClosed(p)) == WithoutPort(CancelCollector(c', "port closed"));
    if c.talk.collector.Some? {
      var k := c.talk.collector.value;
      assert Outstanding(c, k);
      assert Saving(c) <==> c.talk.commands[k].line == "save";
    }
  }

  /** The reconnect: after the pause a new port is opened and takes over, with attempts to spare again. */
  lemma ReconnectOutcome(c: Client, p: nat)
    requires OneOutstanding(c.talk) && Loses(c, p) && Next(c, PortClosed(p)).session.status == Reconnecting
    ensures var r := Next(Next(Next(c, PortClosed(p)), PauseOver), Opened);
      && r.session.status == Connected && r.link.port == Some(c.link.count) && r.link.slot == Some(c.link.count)
      && r.link.attached == c.link.attached - {p} + {c.link.count} && r.session.attempt == 0
      && r.talk.collector.None? && r.talk.sent == []
  {
    LossOutcome(c, p);
    var lost := Next(c, PortClosed(p));
    LossPends(c, p);
    hide Next;
    Reopens(lost);
  }

  lemma LossPends(c: Client, p: nat)
    requires OneOutstanding(c.talk) && Loses(c, p) && Next(c, PortClosed(p)).session.status == Reconnecting
    ensures var r := Next(c, PortClosed(p));
      && Pausing in r.session.pending && r.session.hasLast && !r.session.intentionalClose
      && r.link.attached == c.link.attached - {p} && r.link.count == c.link.count
  {
    hide EndMarkerOf, IsFramed;
  }

  lemma Reopens(c: Client)
    requires c.link.port.None? && c.talk.collector.None? && Pausing in c.session.pending && c.session.hasLast
    requires !c.session.intentionalClose
    ensures var r := Next(Next(c, PauseOver), Opened);
      && r.session.status == Connected && r.link.port == Some(c.link.count) && r.link.slot == Some(c.link.count)
      && r.link.attached == c.link.attached + {c.link.count} && r.session.attempt == 0
      && r.talk.collector.None? && r.talk.sent == []
  {
  }

  /** `disconnect` rejects the outstanding command, lets go of the port and its handlers, and closes it; once
    * it is closed the client is disconnected and what was buffered is gone. */
  lemma DisconnectOutcome(c: Client, p: nat)
    requires OneOutstanding(c.talk) && Loses(c, p)
    ensures var r := Next(Next(c, Disconnect), Closed(false));
      && r.link.port.None? && p !in r.link.open && p !in r.link.attached && r.talk.collector.None?
      && r.session.status == Disconnected && r.session.intentionalClose && r.talk.lineBuf == ""
      && forall k :: 0 <= k < |r.talk.commands| ==> r.talk.commands[k].view.outcome.Some?
  {
    Disconnects(c, p);
    hide Next;
    CloseEnds(Next(c, Disconnect));
  }

  lemma Disconnects(c: Client, p: nat)
    requires OneOutstanding(c.talk) && Loses(c, p)
    ensures var r := Next(c, Disconnect);
      && r.link.port.None? && p !in r.link.open && p !in r.link.attached && r.talk.collector.None?
      && r.session.intentionalClose && Closing(false) in r.session.pending
      && forall k :: 0 <= k < |r.talk.commands| ==> r.talk.commands[k].view.outcome.Some?
  {
    hide EndMarkerOf, IsFramed, IsSave, Release;
    var c' := c.(session := c.session.(intentionalClose := true));
    CancelSettles(c', p, "disconnected");
    ReleaseCloses(CancelCollector(c', "disconnected"), p);
  }

  /** Cancelling settles the outstanding command; for `save` it also disconnects. */
  lemma CancelSettles(c: Client, p: nat, why: string)
    requires OneOutstanding(c.talk) && Loses(c, p)
    ensures var r := CancelCollector(c, why);
      && r.talk.collector.None? && (forall k :: 0 <= k < |r.talk.commands| ==> r.talk.commands[k].view.outcome.Some?)
      && ((r.link == c.link && r.session == c.session) || Released(r, p))
  {
    hide EndMarkerOf, IsFramed, IsSave, Release;
    if HasCollector(c.talk) {
      var k := c.talk.collector.value;
      ReleaseCloses(c.(talk := Settled(c, k, Rejected(Cancelled(why)))), p);
    }
  }

  predicate Released(c: Client, p: nat) {
    c.link.port.None? && p !in c.link.open && p !in c.link.attached && Closing(false) in c.session.pending
  }

  lemma ReleaseCloses(c: Client, p: nat)
    requires Loses(c, p) || Released(c, p)
    ensures var r := Release(c, false);
      Released(r, p) && r.session.intentionalClose && r.talk.collector == c.talk.collector
      && r.talk.commands == c.talk.commands
  {
  }

  lemma CloseEnds(c: Client)
    requires Closing(false) in c.session.pending
    ensures var r := Next(c, Closed(false));
      && r.link == c.link && r.talk.commands == c.talk.commands && r.talk.collector == c.talk.collector
      && r.session.status == Disconnected && r.session.intentionalClose == c.session.intentionalClose
      && r.talk.lineBuf == ""
  {
  }

  /** `connect` without an open port: the attempts and the sent commands start anew, and a failed opening ends
    * without a port. */
  lemma ConnectOutcome(c: Client)
    requires !(c.link.port.Some? && c.link.port.value in c.link.open)
    ensures var r := Next(c, Connect);
      && r.session.status == Connecting && r.session.attempt == 0 && !r.session.intentionalClose && r.talk.sent == []
      && Opening in r.session.pending && r.link == c.link && r.talk.commands == c.talk.commands
      && Next(r, OpenFailed).session.status == Failed && Next(r, OpenFailed).link.port.None?
      && Next(r, Opened).session.status == Connected && Next(r, Opened).link.port == Some(c.link.count)
  {
  }

  /** `connect` with a port open closes that port first. */
  lemma ConnectClosesFirst(c: Client, p: nat)
    requires OneOutstanding(c.talk) && Loses(c, p) && !Saving(c)
    ensures var r := Next(c, Connect);
      && r.link.port.None? && p !in r.link.open && p !in r.link.attached && r.talk.collector.None?
      && Closing(true) in r.session.pending && Next(r, Closed(true)).session.status == Connecting
  {
    hide EndMarkerOf, IsFramed;
    if c.talk.collector.Some? { assert Outstanding(c, c.talk.collector.value); }
    ClosesFirst(CancelCollector(c.(session := c.session.(intentionalClose := true)), "disconnected"), p);
  }

  /** With `save` outstanding the rejection already disconnects: the port is let go of and closed, and the new
    * opening follows once the interrupted `disconnect` is over. */
  lemma ConnectWhileSaving(c: Client, p: nat)
    requires OneOutstanding(c.talk) && Loses(c, p) && Saving(c)
    ensures var r := Next(c, Connect);
      && Released(r, p) && r.talk.collector.None? && r.talk.lineBuf == "" && r.session.status == Disconnected
      && Resuming in r.session.pending && Next(r, Resumed).session.status == Connecting
  {
    hide EndMarkerOf, IsFramed;
    var k := c.talk.collector.value;
    var c' := c.(session := c.session.(intentionalClose := true));
    var released := Release(c'.(talk := Settled(c', k, Rejected(Cancelled("disconnected")))), false);
    ReleaseCloses(c'.(talk := Settled(c', k, Rejected(Cancelled("disconnected")))), p);
    assert CancelCollector(c', "disconnected") == released;
    ResumesLater(released, p);
  }

  lemma ResumesLater(c: Client, p: nat)
    requires Released(c, p) && c.talk.collector.None?
    ensures var r := Release(c, true);
      && Released(r, p) && r.talk.collector.None? && r.talk.lineBuf == "" && r.session.status == Disconnected
      && Resuming in r.session.pending && Next(r, Resumed).session.status == Connecting
  {
  }

  lemma ClosesFirst(c: Client, p: nat)
    requires Loses(c, p)
    ensures var r := Release(c, true);
      && r.link.port.None? && p !in r.link.open && p !in r.link.attached && r.talk.collector == c.talk.collector
      && Closing(true) in r.session.pending && Next(r, Closed(true)).session.status == Connecting
  {
  }
}
