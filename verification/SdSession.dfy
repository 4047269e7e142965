/** sd-read-mock.ts: what each command line, poll and fault does to a session of the firmware, and what
  * follows from it: a cancelled read never answers, a fault strikes once, an interrupted read says why. */
module SdSession {
  import opened Bytes
  import opened FatVolume
  import opened Collector
  import opened Crc32
  import opened Digits
  import opened SdRead
  import opened SdFirmware

  const PROBE := "sd probe"
  const STATUS := "sd status"
  const CANCEL := "sd cancel"

  lemma VerbsAre()
    ensures VerbOf(PROBE) == Probe && VerbOf(STATUS) == StatusQuery && VerbOf(CANCEL) == Cancel
  {
    assert "sd probe"[3] == 'p' && "sd status"[3] == 's' && "sd cancel"[3] == 'c';
  }

  /** `sd read` is the word itself, or what follows it after a space; every other line but the three above is
    * not for the card. */
  lemma ReadLines(line: string)
    ensures VerbOf(line) == Read <==> line == "sd read" || "sd read " <= line
    ensures VerbOf(line) == NotSd <==>
              line != PROBE && line != STATUS && line != CANCEL && line != "sd read" && !("sd read " <= line)
  {
    VerbsAre();
    ReadWord(line);
  }

  lemma ReadWord(line: string)
    ensures StartsWith(line, "sd read") && (|line| == 7 || line[7] == ' ') <==> line == "sd read" || "sd read " <= line
    ensures StartsWith(line, "sd read") ==> line != PROBE && line != STATUS && line != CANCEL
  {
    if StartsWith(line, "sd read") {
      assert line[3] == 'r';
      assert line[..7] == "sd read";
      if |line| > 7 && line[7] == ' ' { assert line[..8] == line[..7] + [line[7]] == "sd read" + " "; }
    }
  }

  /** The firmware accepts exactly the arguments the host prints: the canonical decimal of a 32-bit number. */
  lemma ArgumentAccepted(line: string, sector: nat)
    requires VerbOf(line) == Read
    ensures ReadArgument(line) == Some(sector) <==> sector <= 4_294_967_295 && line == "sd read " + Decimal(sector)
  {
    ReadLines(line);
    ArgumentOf(sector);
    hide VerbOf, Decimal;
    if ReadArgument(line) == Some(sector) {
      SpelledBack(line[8..]);
      assert line == line[..8] + line[8..];
      assert line[..8] == "sd read ";
    }
  }

  lemma {:induction false} SpelledBack(s: string)
    requires IsDecimal(s)
    ensures Decimal(NumberOf(s)) == s && (s[0] != '0' ==> NumberOf(s) > 0)
  {
    hide Decimal;
    var front := s[..|s| - 1];
    LastDigit(s);
    if |s| == 1 {
      assert front == "";
    } else {
      assert AllDigits(front);
      SpelledBack(front);
      NextDigit(NumberOf(front), s[|s| - 1]);
      assert s == front + [s[|s| - 1]];
    }
  }

  lemma LastDigit(s: string)
    requires s != "" && AllDigits(s)
    ensures IsDigit(s[|s| - 1]) && AllDigits(s[..|s| - 1])
    ensures NumberOf(s) == 10 * NumberOf(s[..|s| - 1]) + (s[|s| - 1] - '0') as nat
    ensures |s| == 1 ==> Decimal(NumberOf(s)) == s
  {
    hide Decimal;
    if |s| == 1 { OneDigit(s[0]); }
  }

  lemma OneDigit(c: char)
    requires IsDigit(c)
    ensures NumberOf([c]) == (c - '0') as nat && Decimal((c - '0') as nat) == [c]
  {
    assert [c][..0] == "";
    assert '0' + ((c - '0') as nat) as char == c;
  }

  lemma NextDigit(n: nat, c: char)
    requires IsDigit(c) && n > 0
    ensures Decimal(10 * n + (c - '0') as nat) == Decimal(n) + [c]
  {
    var d := (c - '0') as nat;
    assert (10 * n + d) / 10 == n && (10 * n + d) % 10 == d;
    assert '0' + d as char == c;
  }

  /** The command is not one of those left unanswered, and the card is this firmware's to use. */
  predicate Attends(fw: Firmware, line: string) {
    line !in fw.noReplyOnce && !fw.hostSimulation && !fw.recorderOwnsCard
  }

  // ---------------------------------------------------------------- the outcome of each line

  /** Without a backend, or while the recorder owns the card, every `sd` line is refused and nothing but
    * the log changes. */
  lemma UnavailableOutcome(fw: Firmware, line: string)
    requires line !in fw.noReplyOnce && (fw.hostSimulation || fw.recorderOwnsCard)
    ensures line == PROBE || line == STATUS || line == CANCEL ==>
              Next(fw, Command(line)) == fw.(events := fw.events + [Said(Unavailable)])
    ensures VerbOf(line) == Read ==>
              var r := Next(fw, Command(line));
              && r.events == fw.events + [Received,
                   Terminated(if fw.hostSimulation then HostSimulation else BlackboxBusy)]
              && r.readsInFlight == fw.readsInFlight && r.readActive == fw.readActive && r.phase == fw.phase
  {
    VerbsAre();
    hide VerbOf;
  }

  /** `sd status` changes nothing; it is refused while a read is active. */
  lemma StatusOutcome(fw: Firmware)
    requires Attends(fw, STATUS)
    ensures Next(fw, Command(STATUS))
         == fw.(events := fw.events + [Said(if fw.readActive.Some? then Refusing else Status)])
  {
    VerbsAre();
    hide VerbOf;
  }

  /** `sd probe` starts the card anew, unless armed, probing or reading. */
  lemma ProbeOutcome(fw: Firmware)
    requires Attends(fw, PROBE)
    ensures Next(fw, Command(PROBE)) ==
      if fw.readActive.Some? || fw.armed || fw.phase in {Initializing, ReadingMbr, ReadingBootSector}
      then fw.(events := fw.events + [Said(Refusing)])
      else fw.(events := fw.events + [ProbeStarted], phase := Initializing, cardReady := false, stale := false,
               probeTimer := fw.probeFinite)
  {
    VerbsAre();
    hide VerbOf;
  }

  /** `sd cancel` ends an active read, or else a running probe, or else does nothing. */
  lemma CancelOutcome(fw: Firmware)
    requires Inv(fw) && Attends(fw, CANCEL)
    ensures var busy := fw.phase in {Initializing, ReadingMbr, ReadingBootSector};
      Next(fw, Command(CANCEL)) ==
        if fw.readActive.Some?
        then fw.(events := fw.events + [ReadCancelled], readActive := None, phase := CancelledPhase, readsInFlight := 0)
        else if busy
        then fw.(events := fw.events + [ProbeCancelled], probeTimer := false, phase := CancelledPhase)
        else fw.(events := fw.events + [Said(Status)])
  {
    VerbsAre();
    hide VerbOf, Summarize;
  }

  /** `sd read` while another read is active is refused at once and leaves that read as it was. */
  lemma PipelinedOutcome(fw: Firmware, line: string)
    requires Attends(fw, line) && VerbOf(line) == Read && fw.readActive.Some?
    ensures var r := Next(fw, Command(line));
      && r.events == fw.events + [Received, Terminated(ReadInProgress)]
      && r.readActive == fw.readActive && r.readsInFlight == fw.readsInFlight && r.phase == fw.phase
      && r.readsWhileActive == fw.readsWhileActive + 1
  {
  }

  /** A line that is not for the card changes nothing but the log. */
  lemma OtherOutcome(fw: Firmware, line: string)
    requires line !in fw.noReplyOnce && VerbOf(line) == NotSd
    ensures Next(fw, Command(line)) == fw.(events := fw.events + [Said(NotForTheCard)])
  {
    hide VerbOf;
  }

  /** An `sd read` whose argument the host cannot have printed is refused as malformed once the session could
    * have read a sector. */
  lemma MalformedOutcome(fw: Firmware, line: string)
    requires Attends(fw, line) && VerbOf(line) == Read && fw.readActive.None?
    requires !fw.armed && fw.phase == Done && fw.cardReady && fw.card.Some?
    requires forall sector: nat | sector <= 4_294_967_295 :: line != "sd read " + Decimal(sector)
    ensures var r := Next(fw, Command(line));
      && r.events == fw.events + [Received, Terminated(BadArgument)] && r.readActive.None?
      && r.readsInFlight == fw.readsInFlight && r.faults == fw.faults && r.phase == fw.phase
  {
    if ReadArgument(line).Some? { ArgumentAccepted(line, ReadArgument(line).value); }
    hide VerbOf, ReadArgument;
    var f := Receive(fw);
    assert Next(fw, Command(line)) == Terminate(f, BadArgument);
    TerminateOutcome(f, BadArgument);
    assert fw.events + [Received] + [Terminated(BadArgument)] == fw.events + [Received, Terminated(BadArgument)];
  }

  /** Why `sd read <sector>` is refused when no read is active: the first of these that applies. */
  function Refusal(fw: Firmware, sector: nat): Option<ReadError> {
    if fw.armed then Some(NotDisarmed)
    else if fw.phase != Done || !fw.cardReady || fw.card.None? then Some(NotProbed)
    else if sector > 4_294_967_295 then Some(BadArgument)
    else if sector >= |fw.card.value.content| then Some(OutOfBounds)
    else None
  }

  /** An `sd read` with no read active is received and then begun or refused. */
  lemma HeardRead(fw: Firmware, sector: nat)
    requires Attends(fw, ReadCommand(sector)) && fw.readActive.None?
    ensures Next(fw, Command(ReadCommand(sector))) == AfterBegin(Receive(fw), ReadCommand(sector))
  {
    ArgumentOf(sector);
    hide ReadCommand, VerbOf, ReadArgument, AfterBegin;
  }

  /** A refused `sd read` is answered at once and changes nothing else. */
  lemma ReadRefused(fw: Firmware, sector: nat)
    requires Attends(fw, ReadCommand(sector)) && fw.readActive.None? && Refusal(fw, sector).Some?
    ensures var r := Next(fw, Command(ReadCommand(sector)));
      && r.events == fw.events + [Received, Terminated(Refusal(fw, sector).value)] && r.readActive.None?
      && r.readsInFlight == fw.readsInFlight && r.faults == fw.faults && r.phase == fw.phase
  {
    HeardRead(fw, sector);
    ArgumentOf(sector);
    hide ReadCommand, VerbOf, ReadArgument, NextFault, ShiftFault, Next, Attends, Terminate;
    var f, error := Receive(fw), Refusal(fw, sector).value;
    assert AfterBegin(f, ReadCommand(sector)) == Terminate(f, error);
    TerminateOutcome(f, error);
    assert fw.events + [Received] + [Terminated(error)] == fw.events + [Received, Terminated(error)];
  }

  lemma TerminateOutcome(fw: Firmware, error: ReadError)
    requires fw.readsInFlight > 0
    ensures Terminate(fw, error)
         == fw.(events := fw.events + [Terminated(error)], readsInFlight := fw.readsInFlight - 1)
  {
  }

  /** What is queued for a sector. */
  function Queue(faults: map<nat, seq<Fault>>, sector: nat): seq<Fault> {
    if sector in faults then faults[sector] else []
  }

  /** Any other `sd read` takes the first fault queued for its sector, if there is one, and begins,
    * unless that fault answers at once. */
  lemma ReadBegins(fw: Firmware, sector: nat)
    requires Attends(fw, ReadCommand(sector)) && fw.readActive.None? && Refusal(fw, sector).None?
    ensures var r, queue := Next(fw, Command(ReadCommand(sector))), Queue(fw.faults, sector);
      if queue != [] && queue[0].Immediate? then
        && r.events == fw.events + [Received, Terminated(Injected(queue[0].line))] && r.readActive.None?
        && r.readsInFlight == fw.readsInFlight
      else
        && r.events == fw.events + [Received, ReadBegan(sector)] && r.readsInFlight == fw.readsInFlight + 1
        && r.readActive == Some(if queue == [] then ActiveRead(sector, None, true)
                                else ActiveRead(sector, Some(queue[0]), !queue[0].SilentFault?))
  {
    ArgumentOf(sector);
    hide ReadCommand, VerbOf, ReadArgument, ShiftFault;
  }

  /** The fault is gone from the queue then, the other queues are as they were, and so is the session. */
  lemma FaultTaken(fw: Firmware, sector: nat)
    requires Attends(fw, ReadCommand(sector)) && fw.readActive.None? && Refusal(fw, sector).None?
    ensures var r := Next(fw, Command(ReadCommand(sector)));
      && Queue(r.faults, sector) == (if Queue(fw.faults, sector) == [] then [] else Queue(fw.faults, sector)[1..])
      && (forall other :: other != sector ==> Queue(r.faults, other) == Queue(fw.faults, other))
      && r.phase == fw.phase && r.cardReady == fw.cardReady && r.card == fw.card && r.armed == fw.armed
      && r.stale == fw.stale && r.noReplyOnce == fw.noReplyOnce
      && r.hostSimulation == fw.hostSimulation && r.recorderOwnsCard == fw.recorderOwnsCard
  {
    HeardRead(fw, sector);
    ArgumentOf(sector);
    QueueShifts(fw.faults, sector);
    hide ReadCommand, VerbOf, ReadArgument, ShiftFault, Queue, Next, Attends;
    var f := Receive(fw);
    BeginTakesFault(f, ReadCommand(sector), sector);
  }

  lemma BeginTakesFault(fw: Firmware, line: string, sector: nat)
    requires fw.readsInFlight > 0 && ReadArgument(line) == Some(sector) && Refusal(fw, sector).None?
    ensures var r := AfterBegin(fw, line);
      && r.faults == ShiftFault(fw.faults, sector) && r.phase == fw.phase && r.cardReady == fw.cardReady
      && r.card == fw.card && r.armed == fw.armed && r.stale == fw.stale && r.noReplyOnce == fw.noReplyOnce
      && r.hostSimulation == fw.hostSimulation && r.recorderOwnsCard == fw.recorderOwnsCard
  {
    hide ReadArgument, NextFault, ShiftFault, Terminate;
    var fault := NextFault(fw.faults, sector);
    var shifted := fw.(faults := ShiftFault(fw.faults, sector));
    if fault.Some? && fault.value.Immediate? {
      TerminateOutcome(shifted, Injected(fault.value.line));
      assert AfterBegin(fw, line) == Terminate(shifted, Injected(fault.value.line));
    }
  }

  lemma QueueShifts(faults: map<nat, seq<Fault>>, sector: nat)
    ensures var after, queue := ShiftFault(faults, sector), Queue(faults, sector);
      && Queue(after, sector) == (if queue == [] then [] else queue[1..])
      && (forall other :: other != sector ==> Queue(after, other) == Queue(faults, other))
  {
  }

  lemma ArgumentOf(sector: nat)
    ensures VerbOf(ReadCommand(sector)) == Read
    ensures ReadArgument(ReadCommand(sector)) == if sector <= 4_294_967_295 then Some(sector) else None
  {
    hide Decimal, NumberOf, IsDecimal;
    NumberOfDecimal(sector);
    assert ReadCommand(sector)[8..] == Decimal(sector);
  }

  /** The lines that refuse a read. */
  lemma BusyLines()
    ensures ErrorLine(BlackboxBusy) == "sd_data_error: blackbox busy"
    ensures ErrorLine(ReadInProgress) == "sd_data_error: read in progress"
  {
  }

  lemma FailureLines()
    ensures ErrorLine(GuardCheck) == "sd_data_error: guard check failed"
    ensures ErrorLine(DriverError) == "sd_data_error: driver error"
  {
  }

  lemma BoundsLine()
    ensures ErrorLine(OutOfBounds) == "sd_data_error: sector out of bounds"
  {
  }

  lemma LongRefusalLines()
    ensures ErrorLine(HostSimulation) == "sd_data_error: " + "no hardware backend" + " in host simulation"
    ensures ErrorLine(NotProbed) == "sd_data_error: " + "card not probed" + " or not ready"
    ensures ErrorLine(BadArgument) == "sd_data_error: " + "malformed sector" + " argument"
  {
  }

  lemma GuardLine()
    ensures ErrorLine(NotDisarmed)
         == "sd_data_error: " + "disarm, stop motor" + " tests/calibration," + " connect USB required"
  {
  }

  // ---------------------------------------------------------------- after a cancel

  /** No read is active and none can begin before a probe completes. */
  predicate Held(fw: Firmware) { fw.readActive.None? && fw.phase != Done }

  predicate IsRead(e: Event) { e.ReadBegan? || e.DataSent? }

  predicate NoReads(events: seq<Event>) { forall i :: 0 <= i < |events| ==> !IsRead(events[i]) }

  /** While held, a line adds no read to the log. */
  lemma HeldLine(fw: Firmware, line: string) returns (tail: seq<Event>)
    requires Held(fw)
    ensures AfterLine(fw, line).events == fw.events + tail && NoReads(tail) && Held(AfterLine(fw, line))
  {
    hide VerbOf, RemoveFirst, AfterRead, AfterSd;
    if line in fw.noReplyOnce {
      tail := [];
    } else if VerbOf(line) == Read {
      tail := HeldRead(fw, line);
    } else if VerbOf(line) == NotSd {
      tail := [Said(NotForTheCard)];
    } else {
      tail := HeldSd(fw, VerbOf(line));
    }
  }

  lemma HeldRead(fw: Firmware, line: string) returns (tail: seq<Event>)
    requires Held(fw)
    ensures var r := AfterRead(Receive(fw), line); r.events == fw.events + tail && NoReads(tail) && Held(r)
  {
    hide ReadArgument, Terminate, NextFault, ShiftFault;
    var error := if fw.hostSimulation then HostSimulation else if fw.recorderOwnsCard then BlackboxBusy
                 else if fw.armed then NotDisarmed else NotProbed;
    TerminateOutcome(Receive(fw), error);
    tail := [Received, Terminated(error)];
    assert fw.events + [Received] + [Terminated(error)] == fw.events + tail;
  }

  lemma HeldSd(fw: Firmware, verb: Verb) returns (tail: seq<Event>)
    requires Held(fw)
    ensures var r := AfterSd(fw, verb); r.events == fw.events + tail && NoReads(tail) && Held(r)
  {
    var e := SdEvent(fw, verb);
    tail := [e];
  }

  /** What an `sd` line other than a read adds to the log. */
  lemma SdEvent(fw: Firmware, verb: Verb) returns (e: Event)
    ensures AfterSd(fw, verb).events == fw.events + [e] && !IsRead(e)
    ensures Held(fw) ==> Held(AfterSd(fw, verb))
  {
    hide AfterCancelRead, AfterCancelProbe, AfterProbe;
    if fw.hostSimulation || fw.recorderOwnsCard {
      e := Said(Unavailable);
    } else if fw.readActive.Some? {
      StartedOrCancelled(fw);
      e := if verb == Cancel then ReadCancelled else Said(Refusing);
    } else {
      e := IdleEvent(fw, verb);
    }
  }

  lemma IdleEvent(fw: Firmware, verb: Verb) returns (e: Event)
    requires !fw.hostSimulation && !fw.recorderOwnsCard && fw.readActive.None?
    ensures AfterSd(fw, verb).events == fw.events + [e] && !IsRead(e)
    ensures Held(fw) ==> Held(AfterSd(fw, verb))
  {
    hide AfterCancelRead, AfterCancelProbe, AfterProbe;
    StartedOrCancelled(fw);
    e := if verb == Cancel && ProbeBusy(fw.phase) then ProbeCancelled
         else if verb != Probe then Said(Status)
         else if fw.armed || ProbeBusy(fw.phase) then Said(Refusing)
         else ProbeStarted;
  }

  lemma StartedOrCancelled(fw: Firmware)
    ensures fw.readActive.Some? ==> AfterCancelRead(fw).events == fw.events + [ReadCancelled]
    ensures AfterCancelProbe(fw).events == fw.events + [ProbeCancelled]
    ensures AfterProbe(fw).events == fw.events + [ProbeStarted]
    ensures Held(fw) ==> Held(AfterCancelProbe(fw)) && Held(AfterProbe(fw))
  {
  }

  lemma HeldStep(fw: Firmware, input: Input) returns (tail: seq<Event>)
    requires Held(fw)
    ensures var r := Next(fw, input);
      && r.events == fw.events + tail && NoReads(tail) && (Held(r) || tail == [ProbeDone])
  {
    hide AfterLine, AfterReadTimer, Queued, NoReads, IsRead;
    match input
    case Command(line) => tail := HeldLine(fw, line);
    case _ => tail := TimerEvents(fw, input);
  }

  /** What a timer or the outside world adds to the log while no read can fire. */
  lemma TimerEvents(fw: Firmware, input: Input) returns (tail: seq<Event>)
    requires !input.Command? && !(input.ReadTimer? && ReadCanFire(fw))
    ensures Next(fw, input).events == fw.events + tail
    ensures Held(fw) ==> NoReads(tail) && (Held(Next(fw, input)) || tail == [ProbeDone])
  {
    if input.ProbeTimer? {
      tail := ProbeTimerEvents(fw);
    } else if input.SetArmed? || input.RecordingCycle? {
      tail := [if input.SetArmed? then ArmChanged(input.armed) else Recorded];
      LoggedOutcome(fw, input, tail[0]);
    } else {
      tail := [];
      QuietOutcome(fw, input);
    }
  }

  lemma ProbeTimerEvents(fw: Firmware) returns (tail: seq<Event>)
    ensures Next(fw, ProbeTimer).events == fw.events + tail
    ensures Held(fw) ==> NoReads(tail) && (Held(Next(fw, ProbeTimer)) || tail == [ProbeDone])
  {
    hide AfterProbeTimer;
    tail := if fw.probeTimer then ProbeEvents(fw) else [];
    if fw.phase == Initializing { ProbeTimerOutcome(fw); } else { LateProbeTimer(fw); }
  }

  lemma QuietOutcome(fw: Firmware, input: Input)
    requires input.SetRecorder? || input.AddFault? || input.Silence? || (input.ReadTimer? && !ReadCanFire(fw))
    ensures Next(fw, input).events == fw.events && Next(fw, input).phase == fw.phase
    ensures Next(fw, input).readActive == fw.readActive
  {
    hide ReadCanFire, Queued;
  }

  lemma LoggedOutcome(fw: Firmware, input: Input, e: Event)
    requires (input == RecordingCycle && e == Recorded) || (input.SetArmed? && e == ArmChanged(input.armed))
    ensures Next(fw, input).events == fw.events + [e] && Next(fw, input).phase == fw.phase
    ensures Next(fw, input).readActive == fw.readActive
  {
  }

  function ProbeEvents(fw: Firmware): seq<Event> {
    if fw.phase == Initializing && fw.card.Some? then [ProbeDone] else []
  }

  /** The probe's timer completes the probe if it is still initialising and there is a card; without a card
    * it fails. */
  lemma ProbeTimerOutcome(fw: Firmware)
    requires fw.phase == Initializing
    ensures AfterProbeTimer(fw) ==
      if fw.card.Some?
      then fw.(events := fw.events + [ProbeDone], probeTimer := false, phase := Done, cardReady := true)
      else fw.(probeTimer := false, phase := Failed)
  {
  }

  /** A probe that was cancelled meanwhile stays cancelled. */
  lemma LateProbeTimer(fw: Firmware)
    requires fw.phase != Initializing
    ensures AfterProbeTimer(fw) == fw.(probeTimer := false)
  {
  }

  /** The log only grows. */
  lemma LogGrows(fw: Firmware, input: Input) returns (tail: seq<Event>)
    ensures Next(fw, input).events == fw.events + tail
  {
    hide AfterLine, AfterReadTimer, AfterProbeTimer, Queued, ReadCanFire;
    if input.Command? {
      tail := LineGrows(fw, input.line);
    } else if input.ReadTimer? && ReadCanFire(fw) {
      tail := PollGrows(fw);
    } else {
      tail := TimerEvents(fw, input);
    }
  }

  lemma LineGrows(fw: Firmware, line: string) returns (tail: seq<Event>)
    ensures AfterLine(fw, line).events == fw.events + tail
  {
    hide VerbOf, RemoveFirst, AfterRead, AfterSd;
    if line in fw.noReplyOnce {
      tail := [];
    } else if VerbOf(line) == Read {
      tail := HeardGrows(fw, line);
    } else if VerbOf(line) == NotSd {
      tail := [Said(NotForTheCard)];
    } else {
      var e := SdEvent(fw, VerbOf(line));
      tail := [e];
    }
  }

  lemma HeardGrows(fw: Firmware, line: string) returns (tail: seq<Event>)
    ensures AfterRead(Receive(fw), line).events == fw.events + tail
  {
    hide AfterRead;
    var more := ReadGrows(Receive(fw), line);
    tail := [Received] + more;
    assert fw.events + [Received] + more == fw.events + tail;
  }

  lemma ReadGrows(fw: Firmware, line: string) returns (tail: seq<Event>)
    requires fw.readsInFlight > 0
    ensures AfterRead(fw, line).events == fw.events + tail
  {
    hide AfterBegin, Terminate;
    if fw.hostSimulation || fw.recorderOwnsCard {
      var error := if fw.hostSimulation then HostSimulation else BlackboxBusy;
      TerminateOutcome(fw, error);
      tail := [Terminated(error)];
    } else if fw.readActive.Some? {
      TerminateOutcome(fw.(readsWhileActive := fw.readsWhileActive + 1), ReadInProgress);
      tail := [Terminated(ReadInProgress)];
    } else {
      tail := BeginGrows(fw, line);
    }
  }

  lemma BeginGrows(fw: Firmware, line: string) returns (tail: seq<Event>)
    requires fw.readsInFlight > 0
    ensures AfterBegin(fw, line).events == fw.events + tail
  {
    hide ReadArgument, NextFault, ShiftFault, Terminate;
    var sector := ReadArgument(line);
    if fw.armed {
      TerminateOutcome(fw, NotDisarmed);
      tail := [Terminated(NotDisarmed)];
    } else if fw.phase != Done || !fw.cardReady || fw.card.None? {
      TerminateOutcome(fw, NotProbed);
      tail := [Terminated(NotProbed)];
    } else if sector.None? || sector.value >= fw.card.value.Count() {
      var error := if sector.None? then BadArgument else OutOfBounds;
      TerminateOutcome(fw, error);
      tail := [Terminated(error)];
    } else {
      var fault := NextFault(fw.faults, sector.value);
      var shifted := fw.(faults := ShiftFault(fw.faults, sector.value));
      if fault.Some? && fault.value.Immediate? {
        TerminateOutcome(shifted, Injected(fault.value.line));
        tail := [Terminated(Injected(fault.value.line))];
      } else {
        tail := [ReadBegan(sector.value)];
      }
    }
  }

  lemma PollGrows(fw: Firmware) returns (tail: seq<Event>)
    requires ReadCanFire(fw)
    ensures AfterReadTimer(fw).events == fw.events + tail
  {
    hide DataReply, SaysDriverError, Crc, FailRead;
    var fault := fw.readActive.value.fault;
    if fault.Some? && fault.value.Async? {
      var line := fault.value.line;
      FailOutcome(fw, AsyncFailed, if SaysDriverError(line) then Failed else CancelledPhase, fw.cardReady,
                  Injected(line));
      tail := [AsyncFailed, Terminated(Injected(line))];
    } else if fw.armed {
      FailOutcome(fw, GuardFailed, CancelledPhase, fw.cardReady, GuardCheck);
      tail := [GuardFailed, Terminated(GuardCheck)];
    } else if fw.stale {
      FailOutcome(fw, DriverFailed, Failed, false, DriverError);
      tail := [DriverFailed, Terminated(DriverError)];
    } else {
      tail := [DataReply(fw.readActive.value, fw.card.value.Read(fw.readActive.value.sector))];
    }
  }

  /** `from` onwards, every read comes after a completed probe. */
  predicate ReadsAwaitProbe(events: seq<Event>, from: nat) {
    forall i :: from <= i < |events| && IsRead(events[i]) ==> exists j :: from <= j < i && events[j].ProbeDone?
  }

  predicate ProbedSince(events: seq<Event>, from: nat) {
    exists j :: from <= j < |events| && events[j].ProbeDone?
  }

  /** A session without an active read whose probe is not done begins no read and sends no sector, in any
    * run, until a probe completes. */
  lemma {:induction false} HeldUntilProbed(fw: Firmware, inputs: seq<Input>)
    requires Held(fw)
    ensures var r := Run(fw, inputs);
      && fw.events <= r.events && ReadsAwaitProbe(r.events, |fw.events|)
      && (Held(r) || ProbedSince(r.events, |fw.events|))
  {
    hide Held, Next, IsRead;
    if inputs != [] {
      var was, input := Run(fw, inputs[..|inputs| - 1]), inputs[|inputs| - 1];
      HeldUntilProbed(fw, inputs[..|inputs| - 1]);
      var tail;
      if Held(was) { tail := HeldStep(was, input); } else { tail := LogGrows(was, input); }
      AwaitStep(was.events, tail, |fw.events|, Held(was));
      if ProbedSince(was.events, |fw.events|) {
        var j :| |fw.events| <= j < |was.events| && was.events[j].ProbeDone?;
        assert Next(was, input).events[j].ProbeDone?;
      } else if !Held(Next(was, input)) {
        assert Next(was, input).events[|was.events|].ProbeDone?;
      }
    }
  }

  lemma AwaitStep(before: seq<Event>, tail: seq<Event>, from: nat, held: bool)
    requires from <= |before| && ReadsAwaitProbe(before, from)
    requires held || ProbedSince(before, from)
    requires held ==> NoReads(tail)
    ensures ReadsAwaitProbe(before + tail, from)
  {
    hide IsRead;
    var after := before + tail;
    forall i | from <= i < |after| && IsRead(after[i]) ensures exists j :: from <= j < i && after[j].ProbeDone? {
      if i < |before| {
        var j :| from <= j < i && before[j].ProbeDone?;
        assert after[j].ProbeDone?;
      } else {
        assert after[i] == tail[i - |before|];
        var j :| from <= j < |before| && before[j].ProbeDone?;
        assert after[j].ProbeDone?;
      }
    }
  }

  /** A cancelled read never answers: `sd cancel` with a read or a probe under way leaves no read active or
    * in flight and no timer that can fire, and in every run that follows no read begins and no sector is
    * sent before a probe completes. */
  lemma CancelledNeverAnswers(fw: Firmware, inputs: seq<Input>)
    requires Inv(fw) && Attends(fw, CANCEL)
    requires fw.readActive.Some? || fw.phase in {Initializing, ReadingMbr, ReadingBootSector}
    ensures var cancelled := Next(fw, Command(CANCEL));
      && cancelled.readActive.None? && cancelled.readsInFlight == 0 && !cancelled.probeTimer
      && cancelled.phase == CancelledPhase && |cancelled.events| == |fw.events| + 1
      && ReadsAwaitProbe(Run(cancelled, inputs).events, |cancelled.events|)
  {
    hide Next, Run, Summarize;
    CancelOutcome(fw);
    HeldUntilProbed(Next(fw, Command(CANCEL)), inputs);
  }

  // ---------------------------------------------------------------- what the poll finds

  lemma FailOutcome(fw: Firmware, e: Event, phase: Phase, cardReady: bool, error: ReadError)
    requires fw.readsInFlight > 0
    ensures FailRead(fw, e, phase, cardReady, error)
         == fw.(events := fw.events + [e, Terminated(error)], readActive := None, phase := phase,
                cardReady := cardReady, readsInFlight := fw.readsInFlight - 1)
  {
    assert fw.events + [e] + [Terminated(error)] == fw.events + [e, Terminated(error)];
  }

  /** An asynchronous fault ends the read with its line, whatever else has happened. */
  lemma AsyncOutcome(fw: Firmware)
    requires ReadCanFire(fw) && fw.readActive.value.fault.Some? && fw.readActive.value.fault.value.Async?
    ensures var line := fw.readActive.value.fault.value.line;
      Next(fw, ReadTimer)
        == fw.(events := fw.events + [AsyncFailed, Terminated(Injected(line))], readActive := None,
               phase := if exists i :: 0 <= i <= |line| && PartAt(line, "driver error", i) then Failed
                        else CancelledPhase,
               readsInFlight := fw.readsInFlight - 1)
  {
    hide FailRead;
    var line := fw.readActive.value.fault.value.line;
    var phase := if SaysDriverError(line) then Failed else CancelledPhase;
    FailOutcome(fw, AsyncFailed, phase, fw.cardReady, Injected(line));
  }

  /** Armed since the read began: the guard check ends it. Recorded since the last probe: a driver error
    * ends it and the card has to be probed again. */
  lemma InterruptedOutcome(fw: Firmware)
    requires ReadCanFire(fw) && (fw.armed || fw.stale)
    requires fw.readActive.value.fault.Some? ==> !fw.readActive.value.fault.value.Async?
    ensures Next(fw, ReadTimer) ==
      if fw.armed
      then fw.(events := fw.events + [GuardFailed, Terminated(GuardCheck)], readActive := None,
               phase := CancelledPhase, readsInFlight := fw.readsInFlight - 1)
      else fw.(events := fw.events + [DriverFailed, Terminated(DriverError)], readActive := None,
               phase := Failed, cardReady := false, readsInFlight := fw.readsInFlight - 1)
  {
    hide FailRead, SaysDriverError;
    FailOutcome(fw, GuardFailed, CancelledPhase, fw.cardReady, GuardCheck);
    FailOutcome(fw, DriverFailed, Failed, false, DriverError);
  }

  /** What a sent reply shows: the sector asked for and its bytes, but for the fault of the read. */
  lemma SentOutcome(fw: Firmware)
    requires ReadCanFire(fw) && !fw.armed && !fw.stale
    requires fw.readActive.value.fault.Some? ==> !fw.readActive.value.fault.value.Async?
    ensures var r, active := Next(fw, ReadTimer), fw.readActive.value;
      var last := r.events[|r.events| - 1];
      && |r.events| == |fw.events| + 1 && last.DataSent? && |last.bytes| == SECTOR_BYTES
      && last.crc == FormatCrc32(Crc(fw.card.value.Read(active.sector)))
      && last.shown == (if active.fault.Some? && active.fault.value.WrongSector? then active.fault.value.shown
                        else active.sector)
      && var data := fw.card.value.Read(active.sector);
         if active.fault == Some(CrcFault)
         then
           && last.bytes[..100] == data[..100] && last.bytes[101..] == data[101..]
           && (last.bytes[100] as bv8) ^ (data[100] as bv8) == 0x5a
         else last.bytes == data
  {
    hide FlipByte, Crc, FormatCrc32;
    FlipsFourBits(fw.card.value.Read(fw.readActive.value.sector));
  }

  lemma FlipsFourBits(data: seq<byte>)
    requires |data| == SECTOR_BYTES
    ensures var sent := FlipByte(data);
      && sent[..100] == data[..100] && sent[101..] == data[101..]
      && (sent[100] as bv8) ^ (data[100] as bv8) == 0x5a
  {
    FlipChanges(data);
    var v := data[100] as bv8;
    BitsRoundTrip(v ^ 0x5a);
    assert (v ^ 0x5a) ^ v == 0x5a;
  }

  /** The CRC fault strikes once: the first read of the sector parses as a CRC mismatch, the second one
    * returns the sector. */
  lemma CrcFaultStrikesOnce(fw: Firmware, sector: nat)
    requires CanRead(fw.(faults := map[]), sector) && Queue(fw.faults, sector) == [CrcFault]
    ensures var first := Next(Next(fw, Command(ReadCommand(sector))), ReadTimer);
      var second := Next(Next(first, Command(ReadCommand(sector))), ReadTimer);
      var data := fw.card.value.Read(sector);
      && |first.events| > 0 && |second.events| > 0
      && var one, two := first.events[|first.events| - 1], second.events[|second.events| - 1];
         && one.DataSent? && two.DataSent? && Verdict(ReplyText(one), sector).CrcMismatch?
         && Verdict(ReplyText(two), sector) == Data(sector, data, FormatCrc32(Crc(data)))
  {
    hide CanRead, Verdict, PrintReply, Crc, FormatCrc32, ReadCommand;
    var first := FaultyRead(fw, sector);
    ReadSucceeds(first, sector);
    SdRead.RoundTrip(sector, fw.card.value.Read(sector));
  }

  lemma FaultyRead(fw: Firmware, sector: nat) returns (first: Firmware)
    requires CanRead(fw.(faults := map[]), sector) && Queue(fw.faults, sector) == [CrcFault]
    ensures first == Next(Next(fw, Command(ReadCommand(sector))), ReadTimer) && CanRead(first, sector)
    ensures fw.card.Some? && first.card == fw.card && OnCard(fw.card, sector) && |first.events| > 0
    ensures var one := first.events[|first.events| - 1]; one.DataSent? && Verdict(ReplyText(one), sector).CrcMismatch?
  {
    hide Verdict, PrintReply, Crc, FormatCrc32, ReadCommand, Next, Queue, Inv;
    var begun := Next(fw, Command(ReadCommand(sector)));
    first := Next(begun, ReadTimer);
    ReadBegins(fw, sector);
    FaultTaken(fw, sector);
    SentOutcome(begun);
    SentKeeps(begun);
    FormattedShape(Crc(fw.card.value.Read(sector)));
    NoFaultQueued(begun.faults, sector);
    var one := first.events[|first.events| - 1];
    BurstIsMismatch(sector, fw.card.value.Read(sector), one.bytes, 100, 1);
  }

  lemma NoFaultQueued(faults: map<nat, seq<Fault>>, sector: nat)
    requires Queue(faults, sector) == []
    ensures NextFault(faults, sector).None?
  {
  }

  /** Sending the sector ends the read and leaves the rest of the session as it was. */
  lemma SentKeeps(fw: Firmware)
    requires ReadCanFire(fw) && !fw.armed && !fw.stale
    requires fw.readActive.value.fault.Some? ==> !fw.readActive.value.fault.value.Async?
    ensures var r := Next(fw, ReadTimer);
      r == fw.(events := r.events, readActive := None, readsInFlight := fw.readsInFlight - 1)
  {
    hide DataReply, SaysDriverError;
  }

  /** A silenced line is left unanswered once, and costs nothing else. */
  lemma SilencedOnce(fw: Firmware, line: string)
    requires line !in fw.noReplyOnce
    ensures Next(Next(fw, Silence(line)), Command(line)) == fw
  {
    hide AfterHeard;
    OnlyLastRemoved(fw.noReplyOnce, line);
  }

  lemma {:induction false} OnlyLastRemoved(lines: seq<string>, line: string)
    requires line !in lines
    ensures RemoveFirst(lines + [line], line) == lines
  {
    if lines != [] {
      assert (lines + [line])[1..] == lines[1..] + [line];
      OnlyLastRemoved(lines[1..], line);
    }
  }

  /** New faults wait behind those queued for their sector. */
  lemma QueuedBehind(fw: Firmware, sector: nat, added: seq<Fault>)
    ensures var r := Next(fw, AddFault(sector, added));
      && Queue(r.faults, sector) == Queue(fw.faults, sector) + added
      && forall other :: other != sector ==> Queue(r.faults, other) == Queue(fw.faults, other)
  {
  }
}
