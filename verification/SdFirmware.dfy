/** sd-read-mock.ts: the firmware's `sd probe|status|cancel|read` machine, its accounting of reads in
  * flight, and what has to have happened before it reads or sends a sector. */
module SdFirmware {
  import opened Bytes
  import opened FatVolume
  import opened CliFraming
  import opened Collector
  import opened Digits
  import opened Crc32
  import opened SdRead

  datatype Phase = Idle | Initializing | ReadingMbr | ReadingBootSector | Done | Failed | CancelledPhase

  /** `SdReadFault` */
  datatype Fault = CrcFault | Immediate(line: string) | Async(line: string) | SilentFault | WrongSector(shown: nat)

  /** The line before the end line of a reply without data; an injected one is the fault's. */
  datatype ReadError =
    | HostSimulation | BlackboxBusy | ReadInProgress | NotDisarmed | NotProbed | BadArgument | OutOfBounds
    | GuardCheck | DriverError | Injected(line: string)

  function ErrorLine(error: ReadError): string {
    if error.Injected? then error.line else "sd_data_error: " + ErrorText(error)
  }

  function ErrorText(error: ReadError): string {
    match error
    case HostSimulation => "no hardware backend" + " in host simulation"
    case BlackboxBusy => "blackbox busy"
    case ReadInProgress => "read in progress"
    case NotDisarmed => "disarm, stop motor" + " tests/calibration," + " connect USB required"
    case NotProbed => "card not probed" + " or not ready"
    case BadArgument => "malformed sector" + " argument"
    case OutOfBounds => "sector out of bounds"
    case GuardCheck => "guard check failed"
    case DriverError => "driver error"
    case Injected(line) => line
  }

  /** The other replies, by kind. */
  datatype Answer = Unavailable | Refusing | Status | NotForTheCard

  datatype ActiveRead = ActiveRead(sector: nat, fault: Option<Fault>, timer: bool)

  /** What happened, in order. `Received` is an `sd read` that was not silenced; `Terminated` and
    * `DataSent` are replies ending in the end line, `DataSent` the ones that carry sector data. */
  datatype Event =
    | Started(armed: bool, stale: bool, done: bool)
    | ArmChanged(armed: bool)
    | Recorded
    | ProbeStarted
    | ProbeDone
    | ProbeCancelled
    | Received
    | ReadBegan(sector: nat)
    | Terminated(error: ReadError)
    | DataSent(sector: nat, shown: nat, bytes: seq<byte>, crc: string)
    | ReadCancelled
    | AsyncFailed
    | GuardFailed
    | DriverFailed
    | Said(answer: Answer)

  datatype Firmware = Firmware(
    card: Option<Card>, hostSimulation: bool, armed: bool, recorderOwnsCard: bool, stale: bool, probeFinite: bool,
    phase: Phase, cardReady: bool, noReplyOnce: seq<string>,
    readActive: Option<ActiveRead>, probeTimer: bool, faults: map<nat, seq<Fault>>,
    readsInFlight: nat, maxReadsInFlight: nat, readsWhileActive: nat,
    events: seq<Event>)

  datatype Input =
    | Command(line: string)
    | ReadTimer
    | ProbeTimer
    | SetArmed(armed: bool)
    | RecordingCycle
    | SetRecorder(owns: bool)
    | AddFault(sector: nat, added: seq<Fault>)
    | Silence(line: string)

  /** A session: idle, or with a probe done before it. */
  function Start(card: Option<Card>, hostSimulation: bool, armed: bool, recorderOwnsCard: bool, stale: bool,
                 probeFinite: bool, done: bool): Firmware {
    Firmware(card, hostSimulation, armed, recorderOwnsCard, stale, probeFinite,
             if done then Done else Idle, done && card.Some?, [], None, false, map[], 0, 0, 0,
             [Started(armed, stale, done)])
  }

  // ---------------------------------------------------------------- the steps

  function Log(fw: Firmware, e: Event): Firmware { fw.(events := fw.events + [e]) }

  predicate ProbeBusy(phase: Phase) { phase in {Initializing, ReadingMbr, ReadingBootSector} }

  datatype Verb = Probe | StatusQuery | Cancel | Read | NotSd

  function VerbOf(line: string): Verb {
    if line == "sd probe" then Probe
    else if line == "sd status" then StatusQuery
    else if line == "sd cancel" then Cancel
    else if StartsWith(line, "sd read") && (|line| == 7 || line[7] == ' ') then Read
    else NotSd
  }

  /** The sector of a well-formed `sd read N` line. */
  function ReadArgument(line: string): (r: Option<nat>)
    ensures r.Some? ==> r.value <= MAX_SECTOR
  {
    if |line| > 8 && line[7] == ' ' && IsDecimal(line[8..]) && NumberOf(line[8..]) <= MAX_SECTOR
    then Some(NumberOf(line[8..]))
    else None
  }

  /** A reply that ends an `sd read` at once: it closes the read it answers. */
  function Terminate(fw: Firmware, error: ReadError): Firmware
    requires fw.readsInFlight > 0
  {
    Log(fw, Terminated(error)).(readsInFlight := fw.readsInFlight - 1)
  }

  /** `handle` for one command line. */
  function AfterLine(fw: Firmware, line: string): (r: Firmware)
    ensures r.card == fw.card
  {
    if line in fw.noReplyOnce then fw.(noReplyOnce := RemoveFirst(fw.noReplyOnce, line))
    else AfterHeard(fw, line)
  }

  function AfterHeard(fw: Firmware, line: string): (r: Firmware)
    ensures r.card == fw.card
  {
    if VerbOf(line) == Read then AfterRead(Receive(fw), line)
    else if VerbOf(line) == NotSd then Log(fw, Said(NotForTheCard))
    else AfterSd(fw, VerbOf(line))
  }

  function AfterSd(fw: Firmware, verb: Verb): (r: Firmware)
    ensures r.card == fw.card
  {
    if fw.hostSimulation || fw.recorderOwnsCard then Log(fw, Said(Unavailable))
    else if fw.readActive.Some? then if verb == Cancel then AfterCancelRead(fw) else Log(fw, Said(Refusing))
    else if verb == Cancel && ProbeBusy(fw.phase) then AfterCancelProbe(fw)
    else if verb == Probe && (fw.armed || ProbeBusy(fw.phase)) then Log(fw, Said(Refusing))
    else if verb == Probe then AfterProbe(fw)
    else Log(fw, Said(Status))
  }

  function RemoveFirst(lines: seq<string>, line: string): seq<string> {
    if lines == [] then [] else if lines[0] == line then lines[1..] else [lines[0]] + RemoveFirst(lines[1..], line)
  }

  /** The read is in flight from its receipt. */
  function Receive(fw: Firmware): Firmware {
    var n := fw.readsInFlight + 1;
    Log(fw, Received).(readsInFlight := n,
                       maxReadsInFlight := if n > fw.maxReadsInFlight then n else fw.maxReadsInFlight)
  }

  function AfterRead(fw: Firmware, line: string): (r: Firmware)
    requires fw.readsInFlight > 0
    ensures r.card == fw.card
  {
    if fw.hostSimulation then Terminate(fw, HostSimulation)
    else if fw.recorderOwnsCard then Terminate(fw, BlackboxBusy)
    else if fw.readActive.Some? then Terminate(fw.(readsWhileActive := fw.readsWhileActive + 1), ReadInProgress)
    else AfterBegin(fw, line)
  }

  function AfterBegin(fw: Firmware, line: string): (r: Firmware)
    requires fw.readsInFlight > 0
    ensures r.card == fw.card
  {
    var sector := ReadArgument(line);
    if fw.armed then Terminate(fw, NotDisarmed)
    else if fw.phase != Done || !fw.cardReady || fw.card.None? then Terminate(fw, NotProbed)
    else if sector.None? then Terminate(fw, BadArgument)
    else if sector.value >= fw.card.value.Count() then Terminate(fw, OutOfBounds)
    else
      var fault := NextFault(fw.faults, sector.value);
      var shifted := fw.(faults := ShiftFault(fw.faults, sector.value));
      if fault.Some? && fault.value.Immediate? then Terminate(shifted, Injected(fault.value.line))
      else
        var active := ActiveRead(sector.value, fault, fault != Some(SilentFault));
        Log(shifted, ReadBegan(sector.value)).(readActive := Some(active))
  }

  function NextFault(faults: map<nat, seq<Fault>>, sector: nat): Option<Fault> {
    if sector in faults && faults[sector] != [] then Some(faults[sector][0]) else None
  }

  function ShiftFault(faults: map<nat, seq<Fault>>, sector: nat): map<nat, seq<Fault>> {
    if sector in faults && faults[sector] != [] then faults[sector := faults[sector][1..]] else faults
  }

  function Queued(faults: map<nat, seq<Fault>>, sector: nat, added: seq<Fault>): map<nat, seq<Fault>> {
    faults[sector := (if sector in faults then faults[sector] else []) + added]
  }

  function AfterCancelRead(fw: Firmware): Firmware
    requires fw.readActive.Some?
  {
    Log(fw, ReadCancelled).(readActive := None, phase := CancelledPhase,
                            readsInFlight := if fw.readsInFlight > 0 then fw.readsInFlight - 1 else 0)
  }

  function AfterCancelProbe(fw: Firmware): Firmware {
    Log(fw, ProbeCancelled).(probeTimer := false, phase := CancelledPhase)
  }

  function AfterProbe(fw: Firmware): Firmware {
    Log(fw, ProbeStarted).(phase := Initializing, cardReady := false, stale := false, probeTimer := fw.probeFinite)
  }

  /** The probe's timer. */
  function AfterProbeTimer(fw: Firmware): (r: Firmware)
    ensures r.card == fw.card
  {
    var fw' := fw.(probeTimer := false);
    if fw.phase != Initializing then fw'
    else if fw.card.Some? then Log(fw', ProbeDone).(phase := Done, cardReady := true)
    else fw'.(phase := Failed)
  }

  predicate PartAt(text: string, part: string, i: nat) { i + |part| <= |text| && text[i..i + |part|] == part }

  /** `/driver error/` */
  predicate SaysDriverError(text: string) { exists i :: 0 <= i <= |text| && PartAt(text, "driver error", i) }

  /** A read that ends without data closes the probe it relied on. */
  function FailRead(fw: Firmware, e: Event, phase: Phase, cardReady: bool, error: ReadError): (r: Firmware)
    requires fw.readsInFlight > 0
    ensures r.card == fw.card
  {
    Terminate(Log(fw.(readActive := None), e).(phase := phase, cardReady := cardReady), error)
  }

  function SendData(fw: Firmware, e: Event): (r: Firmware)
    requires fw.readsInFlight > 0
    ensures r.card == fw.card
  {
    Log(fw.(readActive := None), e).(readsInFlight := fw.readsInFlight - 1)
  }

  /** The read's background poll. */
  function AfterReadTimer(fw: Firmware): (r: Firmware)
    requires ReadCanFire(fw)
    ensures r.card == fw.card
  {
    var active := fw.readActive.value;
    if active.fault.Some? && active.fault.value.Async? then
      FailRead(fw, AsyncFailed,
               if SaysDriverError(active.fault.value.line) then Failed else CancelledPhase, fw.cardReady,
               Injected(active.fault.value.line))
    else if fw.armed then FailRead(fw, GuardFailed, CancelledPhase, fw.cardReady, GuardCheck)
    else if fw.stale then FailRead(fw, DriverFailed, Failed, false, DriverError)
    else SendData(fw, DataReply(active, fw.card.value.Read(active.sector)))
  }

  /** The reply with the sector's data, its CRC taken before the fault. */
  function DataReply(active: ActiveRead, data: seq<byte>): Event
    requires |data| == SECTOR_BYTES
  {
    DataSent(active.sector, Shown(active), Sent(active, data), FormatCrc32(Crc(data)))
  }

  /** The sector number the reply shows. */
  function Shown(active: ActiveRead): nat {
    if active.fault.Some? && active.fault.value.WrongSector? then active.fault.value.shown else active.sector
  }

  /** `data[100] ^= 0x5a` */
  function FlipByte(data: seq<byte>): (r: seq<byte>)
    requires |data| == SECTOR_BYTES
    ensures |r| == SECTOR_BYTES
  {
    data[100 := FlipBits(data[100])]
  }

  function FlipBits(b: byte): byte { ((b as bv8) ^ 0x5a) as int }

  /** The bytes the reply carries: the sector's, with the CRC fault one byte changed in transit. */
  function Sent(active: ActiveRead, data: seq<byte>): (r: seq<byte>)
    requires |data| == SECTOR_BYTES
    ensures |r| == SECTOR_BYTES
  {
    if active.fault == Some(CrcFault) then FlipByte(data) else data
  }

  predicate ReadCanFire(fw: Firmware) {
    && fw.readActive.Some? && fw.readActive.value.timer && fw.readsInFlight > 0
    && fw.card.Some? && fw.readActive.value.sector < fw.card.value.Count()
    && |fw.card.value.Read(fw.readActive.value.sector)| == SECTOR_BYTES
  }

  function Next(fw: Firmware, input: Input): Firmware {
    match input
    case Command(line) => AfterLine(fw, line)
    case ReadTimer => if ReadCanFire(fw) then AfterReadTimer(fw) else fw
    case ProbeTimer => if fw.probeTimer then AfterProbeTimer(fw) else fw
    case SetArmed(armed) => Log(fw, ArmChanged(armed)).(armed := armed)
    case RecordingCycle => Log(fw, Recorded).(stale := true)
    case SetRecorder(owns) => fw.(recorderOwnsCard := owns)
    case AddFault(sector, added) =>
      fw.(faults := Queued(fw.faults, sector, added))
    case Silence(line) => fw.(noReplyOnce := fw.noReplyOnce + [line])
  }

  function Run(fw: Firmware, inputs: seq<Input>): Firmware {
    if inputs == [] then fw else Next(Run(fw, inputs[..|inputs| - 1]), inputs[|inputs| - 1])
  }

  // ---------------------------------------------------------------- histories

  /** What a history amounts to. */
  datatype Summary = Summary(ready: bool, armed: bool, stale: bool, received: nat, terminated: nat, cancelled: nat,
                             safe: bool)

  predicate OnCard(card: Option<Card>, sector: nat) {
    card.Some? && sector <= MAX_SECTOR && Readable(card.value, sector)
  }

  /** The CRC sent is the sector's, and so are the bytes, unless the one byte of the CRC fault was changed. */
  predicate Honest(data: seq<byte>, e: Event)
    requires e.DataSent? && |data| == SECTOR_BYTES
  {
    e.crc == FormatCrc32(Crc(data)) && (e.bytes == data || (e.bytes == FlipByte(data) && e.shown == e.sector))
  }

  /** A read may begin, and a sector may be sent, only for a sector of the card, disarmed, and with a
    * completed probe nothing has spoiled since; sending also needs a card that is not stale. */
  predicate Allowed(card: Option<Card>, s: Summary, e: Event) {
    && (e.ReadBegan? ==> OnCard(card, e.sector) && s.ready && !s.armed)
    && (e.DataSent? ==>
          && OnCard(card, e.sector) && s.ready && !s.armed && !s.stale
          && Honest(card.value.Read(e.sector), e))
  }

  function After(card: Option<Card>, s: Summary, e: Event): Summary {
    var t := s.(safe := s.safe && Allowed(card, s, e));
    match e
    case Started(armed, stale, done) => t.(ready := done, armed := armed, stale := stale)
    case ArmChanged(armed) => t.(armed := armed)
    case Recorded => t.(stale := true)
    case ProbeStarted => t.(ready := false, stale := false)
    case ProbeDone => t.(ready := true)
    case ProbeCancelled => t.(ready := false)
    case Received => t.(received := s.received + 1)
    case ReadBegan(_) => t
    case Terminated(_) => t.(terminated := s.terminated + 1)
    case DataSent(_, _, _, _) => t.(terminated := s.terminated + 1)
    case ReadCancelled => t.(ready := false, cancelled := s.cancelled + 1)
    case AsyncFailed => t.(ready := false)
    case GuardFailed => t.(ready := false)
    case DriverFailed => t.(ready := false)
    case Said(_) => t
  }

  function Summarize(card: Option<Card>, events: seq<Event>): Summary {
    if events == [] then Summary(false, false, false, 0, 0, 0, true)
    else After(card, Summarize(card, events[..|events| - 1]), events[|events| - 1])
  }

  lemma SummarizeAppend(card: Option<Card>, events: seq<Event>, e: Event)
    ensures Summarize(card, events + [e]) == After(card, Summarize(card, events), e)
  {
    assert (events + [e])[..|events|] == events;
  }

  function Past(fw: Firmware): Summary { Summarize(fw.card, fw.events) }

  function Active(fw: Firmware): nat { if fw.readActive.Some? then 1 else 0 }

  predicate GoodCard(fw: Firmware) {
    fw.card.Some? ==> forall i :: 0 <= i < fw.card.value.Count() ==> |fw.card.value.Read(i)| == SECTOR_BYTES
  }

  /** What every step keeps, apart from the accounting. */
  predicate Core(fw: Firmware) {
    && GoodCard(fw)
    && (fw.probeTimer ==> fw.phase == Initializing)
    && (fw.phase == Done ==> Past(fw).ready)
    && (fw.readActive.Some? ==> fw.phase == Done && fw.cardReady && OnCard(fw.card, fw.readActive.value.sector))
    && fw.armed == Past(fw).armed && fw.stale == Past(fw).stale
    && Past(fw).safe
  }

  /** Reads are accounted for, with `open` of them received and neither active nor answered yet. */
  predicate Settled(fw: Firmware, open: nat) {
    && fw.readsInFlight == Active(fw) + open
    && Past(fw).received == Past(fw).terminated + Past(fw).cancelled + Active(fw) + open
    && fw.readsInFlight <= fw.maxReadsInFlight <= 2 && (fw.readsWhileActive > 0 ==> fw.maxReadsInFlight == 2)
  }

  predicate Inv(fw: Firmware) { Core(fw) && Settled(fw, 0) }

  lemma LogAppends(fw: Firmware, e: Event)
    ensures Past(Log(fw, e)) == After(fw.card, Past(fw), e)
  {
    SummarizeAppend(fw.card, fw.events, e);
  }

  lemma TerminateKeeps(fw: Firmware, error: ReadError)
    requires Core(fw) && Settled(fw, 1)
    ensures Inv(Terminate(fw, error))
  {
    hide Summarize;
    LogAppends(fw, Terminated(error));
    assert Past(Terminate(fw, error)) == Past(Log(fw, Terminated(error)));
  }

  lemma ReceiveKeeps(fw: Firmware)
    requires Inv(fw)
    ensures Core(Receive(fw)) && Settled(Receive(fw), 1) && Receive(fw).readsInFlight > 0
  {
    hide Summarize;
    LogAppends(fw, Received);
    assert Past(Receive(fw)) == Past(Log(fw, Received));
  }

  lemma SaidKeeps(fw: Firmware, answer: Answer)
    requires Inv(fw)
    ensures Inv(Log(fw, Said(answer)))
  {
    hide Summarize;
    LogAppends(fw, Said(answer));
  }

  lemma BeginKeeps(fw: Firmware, line: string)
    requires Core(fw) && Settled(fw, 1) && fw.readActive.None?
    ensures Inv(AfterBegin(fw, line))
  {
    hide Summarize, ReadArgument, NextFault, ShiftFault, Terminate;
    var sector := ReadArgument(line);
    if fw.armed {
      TerminateKeeps(fw, NotDisarmed);
    } else if fw.phase != Done || !fw.cardReady || fw.card.None? {
      TerminateKeeps(fw, NotProbed);
    } else if sector.None? {
      TerminateKeeps(fw, BadArgument);
    } else if sector.value >= fw.card.value.Count() {
      TerminateKeeps(fw, OutOfBounds);
    } else {
      var fault := NextFault(fw.faults, sector.value);
      var shifted := fw.(faults := ShiftFault(fw.faults, sector.value));
      assert Past(shifted) == Past(fw);
      if fault.Some? && fault.value.Immediate? {
        TerminateKeeps(shifted, Injected(fault.value.line));
      } else {
        LogAppends(shifted, ReadBegan(sector.value));
        assert OnCard(fw.card, sector.value);
        assert Past(AfterBegin(fw, line)) == Past(Log(shifted, ReadBegan(sector.value)));
      }
    }
  }

  lemma HandleReadKeeps(fw: Firmware, line: string)
    requires Core(fw) && Settled(fw, 1)
    ensures Inv(AfterRead(fw, line))
  {
    hide Summarize, AfterBegin, Terminate;
    if fw.hostSimulation {
      TerminateKeeps(fw, HostSimulation);
    } else if fw.recorderOwnsCard {
      TerminateKeeps(fw, BlackboxBusy);
    } else if fw.readActive.Some? {
      var fw' := fw.(readsWhileActive := fw.readsWhileActive + 1);
      assert Past(fw') == Past(fw);
      TerminateKeeps(fw', ReadInProgress);
    } else {
      BeginKeeps(fw, line);
    }
  }

  lemma CancelReadKeeps(fw: Firmware)
    requires Inv(fw) && fw.readActive.Some?
    ensures Inv(AfterCancelRead(fw))
  {
    hide Summarize;
    LogAppends(fw, ReadCancelled);
    assert Past(AfterCancelRead(fw)) == Past(Log(fw, ReadCancelled));
  }

  lemma CancelProbeKeeps(fw: Firmware)
    requires Inv(fw) && fw.readActive.None?
    ensures Inv(AfterCancelProbe(fw))
  {
    hide Summarize;
    LogAppends(fw, ProbeCancelled);
    assert Past(AfterCancelProbe(fw)) == Past(Log(fw, ProbeCancelled));
  }

  lemma ProbeKeeps(fw: Firmware)
    requires Inv(fw) && fw.readActive.None?
    ensures Inv(AfterProbe(fw))
  {
    hide Summarize;
    LogAppends(fw, ProbeStarted);
    assert Past(AfterProbe(fw)) == Past(Log(fw, ProbeStarted));
  }

  lemma ProbeTimerKeeps(fw: Firmware)
    requires Inv(fw) && fw.probeTimer
    ensures Inv(AfterProbeTimer(fw))
  {
    hide Summarize;
    var fw' := fw.(probeTimer := false);
    assert Past(fw') == Past(fw);
    LogAppends(fw', ProbeDone);
    assert Past(Log(fw', ProbeDone).(phase := Done, cardReady := true)) == Past(Log(fw', ProbeDone));
  }

  lemma HandleKeeps(fw: Firmware, line: string)
    requires Inv(fw)
    ensures Inv(AfterLine(fw, line))
  {
    hide Summarize, Core, Settled, AfterRead, AfterCancelRead, AfterCancelProbe, AfterProbe, VerbOf, RemoveFirst;
    if line in fw.noReplyOnce {
      SilenceKeeps(fw, RemoveFirst(fw.noReplyOnce, line));
    } else if VerbOf(line) == Read {
      ReceiveKeeps(fw);
      HandleReadKeeps(Receive(fw), line);
    } else {
      SaidKeeps(fw, Unavailable);
      SaidKeeps(fw, Refusing);
      SaidKeeps(fw, Refusing);
      SaidKeeps(fw, Status);
      SaidKeeps(fw, NotForTheCard);
      if fw.readActive.Some? {
        CancelReadKeeps(fw);
      } else {
        CancelProbeKeeps(fw);
        ProbeKeeps(fw);
      }
    }
  }

  lemma SilenceKeeps(fw: Firmware, lines: seq<string>)
    requires Inv(fw)
    ensures Inv(fw.(noReplyOnce := lines))
  {
    hide Summarize;
    assert Past(fw.(noReplyOnce := lines)) == Past(fw);
  }

  lemma FireReadKeeps(fw: Firmware)
    requires Inv(fw) && ReadCanFire(fw)
    ensures Inv(AfterReadTimer(fw))
  {
    hide Summarize, SaysDriverError, FailRead, SendData, DataReply, Settled, Core;
    var active := fw.readActive.value;
    if active.fault.Some? && active.fault.value.Async? {
      var line := active.fault.value.line;
      FailKeeps(fw, AsyncFailed,
                if SaysDriverError(line) then Failed else CancelledPhase, fw.cardReady, Injected(line));
    } else {
      FailKeeps(fw, GuardFailed, CancelledPhase, fw.cardReady, GuardCheck);
      FailKeeps(fw, DriverFailed, Failed, false, DriverError);
      if !fw.armed && !fw.stale { SendKeeps(fw); }
    }
  }

  lemma SendKeeps(fw: Firmware)
    requires Inv(fw) && ReadCanFire(fw) && !fw.armed && !fw.stale
    ensures var active := fw.readActive.value;
      Inv(SendData(fw, DataReply(active, fw.card.value.Read(active.sector))))
  {
    hide Summarize, FlipByte, Crc, FormatCrc32;
    var active := fw.readActive.value;
    var fw' := fw.(readActive := None);
    assert Past(fw') == Past(fw);
    var reply := DataReply(active, fw.card.value.Read(active.sector));
    LogAppends(fw', reply);
    assert Past(Log(fw', reply).(readsInFlight := fw.readsInFlight - 1)) == Past(Log(fw', reply));
    assert Honest(fw.card.value.Read(active.sector), reply);
  }

  lemma FailKeeps(fw: Firmware, e: Event, phase: Phase, cardReady: bool, error: ReadError)
    requires Inv(fw) && fw.readActive.Some? && phase != Done
        && (e == AsyncFailed || e == GuardFailed || e == DriverFailed)
    requires fw.readsInFlight > 0
    ensures Inv(FailRead(fw, e, phase, cardReady, error))
  {
    hide Summarize;
    var fw' := fw.(readActive := None);
    assert Past(fw') == Past(fw);
    LogAppends(fw', e);
    var next := Log(fw', e).(phase := phase, cardReady := cardReady);
    assert Past(next) == Past(Log(fw', e));
    TerminateKeeps(next, error);
  }

  /** Every step keeps the invariant. */
  lemma StepKeeps(fw: Firmware, input: Input)
    requires Inv(fw)
    ensures Inv(Next(fw, input))
  {
    hide Inv, ReadCanFire, AfterLine, AfterReadTimer, AfterProbeTimer, Queued;
    match input
    case Command(line) => HandleKeeps(fw, line);
    case ReadTimer => if ReadCanFire(fw) { FireReadKeeps(fw); }
    case ProbeTimer => if fw.probeTimer { ProbeTimerKeeps(fw); }
    case SetArmed(armed) => ArmingKeeps(fw, armed);
    case RecordingCycle => RecordingKeeps(fw);
    case SetRecorder(owns) => RecorderKeeps(fw, owns);
    case AddFault(sector, added) => FaultsKeep(fw, sector, added);
    case Silence(line) => SilenceKeeps(fw, fw.noReplyOnce + [line]);
  }

  lemma ArmingKeeps(fw: Firmware, armed: bool)
    requires Inv(fw)
    ensures Inv(Next(fw, SetArmed(armed)))
  {
    hide Summarize;
    LogAppends(fw, ArmChanged(armed));
    assert Past(Next(fw, SetArmed(armed))) == Past(Log(fw, ArmChanged(armed)));
  }

  lemma RecordingKeeps(fw: Firmware)
    requires Inv(fw)
    ensures Inv(Next(fw, RecordingCycle))
  {
    hide Summarize;
    LogAppends(fw, Recorded);
    assert Past(Next(fw, RecordingCycle)) == Past(Log(fw, Recorded));
  }

  lemma RecorderKeeps(fw: Firmware, owns: bool)
    requires Inv(fw)
    ensures Inv(Next(fw, SetRecorder(owns)))
  {
    hide Summarize;
    assert Past(Next(fw, SetRecorder(owns))) == Past(fw);
  }

  lemma FaultsKeep(fw: Firmware, sector: nat, added: seq<Fault>)
    requires Inv(fw)
    ensures Inv(Next(fw, AddFault(sector, added)))
  {
    hide Summarize, Queued;
    assert Past(Next(fw, AddFault(sector, added))) == Past(fw);
  }

  // ---------------------------------------------------------------- whole runs

  ghost predicate IsStart(fw: Firmware) {
    exists card, hostSimulation, armed, owns, stale, finite, done ::
      fw == Start(card, hostSimulation, armed, owns, stale, finite, done)
  }

  lemma StartKeeps(fw: Firmware)
    requires IsStart(fw) && GoodCard(fw)
    ensures Inv(fw)
  {
    var start := Summary(false, false, false, 0, 0, 0, true);
    assert fw.events[..0] == [] && Summarize(fw.card, fw.events[..0]) == start;
    assert |fw.events| == 1 && Past(fw) == After(fw.card, start, fw.events[0]);
  }

  lemma {:induction false} RunKeeps(fw: Firmware, inputs: seq<Input>)
    requires IsStart(fw) && GoodCard(fw)
    ensures Inv(Run(fw, inputs)) && Run(fw, inputs).card == fw.card
  {
    hide Inv, Next;
    if inputs == [] {
      StartKeeps(fw);
    } else {
      RunKeeps(fw, inputs[..|inputs| - 1]);
      StepKeeps(Run(fw, inputs[..|inputs| - 1]), inputs[|inputs| - 1]);
      StepKeepsCard(Run(fw, inputs[..|inputs| - 1]), inputs[|inputs| - 1]);
    }
  }

  lemma StepKeepsCard(fw: Firmware, input: Input)
    ensures Next(fw, input).card == fw.card
  {
    hide AfterLine, AfterReadTimer, AfterProbeTimer, Queued, ReadCanFire, Log;
    assert forall e :: Log(fw, e).card == fw.card by { LogKeepsCard(fw); }
  }

  lemma LogKeepsCard(fw: Firmware)
    ensures forall e :: Log(fw, e).card == fw.card
  {
  }

  /** Conservation: over every run, between steps, the reads in flight are 1 exactly while a read is
    * active, every `sd read` received was answered with an end line, cancelled, or is active, and at
    * most two reads were ever open at once, two if one arrived while another was active. */
  lemma ReadsAreConserved(fw: Firmware, inputs: seq<Input>)
    requires IsStart(fw) && GoodCard(fw)
    ensures var after := Run(fw, inputs);
      && after.readsInFlight == Active(after)
      && Past(after).received == Past(after).terminated + Past(after).cancelled + Active(after)
      && after.maxReadsInFlight <= 2 && (after.readsWhileActive > 0 ==> after.maxReadsInFlight == 2)
  {
    hide Core, Run;
    RunKeeps(fw, inputs);
  }

  /** What spoils a completed probe. */
  predicate Spoils(e: Event) {
    e.ReadCancelled? || e.ProbeCancelled? || e.ProbeStarted? || e.AsyncFailed? || e.GuardFailed? || e.DriverFailed?
  }

  predicate Completes(e: Event) { e.ProbeDone? || (e.Started? && e.done) }

  predicate Unspoilt(events: seq<Event>, j: nat, i: nat)
    requires j < i <= |events|
  {
    Completes(events[j]) && forall k :: j < k < i ==> !Spoils(events[k])
  }

  /** Somewhere before `i` a probe completed (or the session started with one), and nothing spoiled
    * it since. */
  predicate ProbedBefore(events: seq<Event>, i: nat)
    requires i <= |events|
  {
    exists j :: 0 <= j < i && Unspoilt(events, j, i)
  }

  lemma ReadyStep(card: Option<Card>, s: Summary, e: Event)
    requires After(card, s, e).ready
    ensures Completes(e) || (s.ready && !Spoils(e))
  {
  }

  lemma {:induction false} ReadyIsProbed(card: Option<Card>, events: seq<Event>)
    requires Summarize(card, events).ready
    ensures ProbedBefore(events, |events|)
  {
    hide After, Completes, Spoils;
    var n := |events| - 1;
    ReadyStep(card, Summarize(card, events[..n]), events[n]);
    if Completes(events[n]) {
      assert Unspoilt(events, n, n + 1);
    } else {
      ReadyIsProbed(card, events[..n]);
      var j :| 0 <= j < n && Unspoilt(events[..n], j, n);
      assert forall k :: j < k < n ==> events[..n][k] == events[k];
      assert Unspoilt(events, j, n + 1);
    }
  }

  lemma SafeSoFar(card: Option<Card>, s: Summary, e: Event)
    ensures After(card, s, e).safe <==> s.safe && Allowed(card, s, e)
  {
    hide Allowed;
  }

  lemma {:induction false} SafeEverywhere(card: Option<Card>, events: seq<Event>, i: nat)
    requires Summarize(card, events).safe && i < |events|
    ensures Allowed(card, Summarize(card, events[..i]), events[i])
    decreases |events|
  {
    hide Allowed, After;
    var n := |events| - 1;
    SafeSoFar(card, Summarize(card, events[..n]), events[n]);
    if i < n {
      hide Summarize;
      SafeEverywhere(card, events[..n], i);
      assert events[..n][..i] == events[..i] && events[..n][i] == events[i];
    }
  }

  /** Safety over whole runs: a read begins, or a sector is sent, only for a sector inside the card,
    * while disarmed, after a completed probe with no cancelled read, cancelled or restarted probe,
    * guard failure, async fault or driver error since; and a sector is sent only when no recording
    * came after the last probe was started. */
  lemma ReadsAreSafe(fw: Firmware, inputs: seq<Input>, i: nat)
    requires IsStart(fw) && GoodCard(fw) && i < |Run(fw, inputs).events|
    requires Run(fw, inputs).events[i].ReadBegan? || Run(fw, inputs).events[i].DataSent?
    ensures var events := Run(fw, inputs).events;
      var past := Summarize(fw.card, events[..i]);
      && OnCard(fw.card, events[i].sector) && !past.armed && ProbedBefore(events, i)
      && (events[i].DataSent? ==> !past.stale && Honest(fw.card.value.Read(events[i].sector), events[i]))
  {
    hide Run, Summarize, Settled, OnCard, Honest;
    RunKeeps(fw, inputs);
    var events := Run(fw, inputs).events;
    SafeEverywhere(fw.card, events, i);
    ReadyIsProbed(fw.card, events[..i]);
    var j :| 0 <= j < i && Unspoilt(events[..i], j, i);
    assert forall k :: j < k < i ==> events[..i][k] == events[k];
    assert Unspoilt(events, j, i);
  }

  /** Text on one line that ends in a letter. */
  predicate IsPlain(text: string) {
    NoBreak(text) && 0 < |text| <= 60 && 'a' <= text[|text| - 1] <= 'z'
  }

  lemma PlainEnd(front: string, end: string)
    requires NoBreak(front) && '\r' !in end && '\n' !in end && |front| + |end| <= 60
    requires end != "" && 'a' <= end[|end| - 1] <= 'z'
    ensures IsPlain(front + end)
  {
    NoneIsBreak(end);
    NoBreakConcat(front, end);
    hide NoBreak;
    assert (front + end)[|front + end| - 1] == end[|end| - 1];
  }

  lemma SimulationIsPlain()
    ensures IsPlain(ErrorText(HostSimulation))
  {
    hide NoBreak, IsPlain;
    NoneIsBreak("no hardware backend");
    PlainEnd("no hardware backend", " in host simulation");
  }

  lemma GuardFrontIsPlain()
    ensures NoBreak("disarm, stop motor" + " tests/calibration,")
  {
    NoneIsBreak("disarm, stop motor");
    NoneIsBreak(" tests/calibration,");
    hide NoBreak;
    NoBreakConcat("disarm, stop motor", " tests/calibration,");
  }

  lemma GuardIsPlain()
    ensures IsPlain(ErrorText(NotDisarmed))
  {
    hide NoBreak, IsPlain;
    GuardFrontIsPlain();
    PlainEnd("disarm, stop motor" + " tests/calibration,", " connect USB required");
  }

  lemma ProbeIsPlain()
    ensures IsPlain(ErrorText(NotProbed))
  {
    hide NoBreak, IsPlain;
    NoneIsBreak("card not probed");
    PlainEnd("card not probed", " or not ready");
  }

  lemma ArgumentIsPlain()
    ensures IsPlain(ErrorText(BadArgument))
  {
    hide NoBreak, IsPlain;
    NoneIsBreak("malformed sector");
    PlainEnd("malformed sector", " argument");
  }

  lemma BusyIsPlain()
    ensures IsPlain(ErrorText(BlackboxBusy)) && IsPlain(ErrorText(ReadInProgress))
  {
    NoneIsBreak(ErrorText(BlackboxBusy));
    NoneIsBreak(ErrorText(ReadInProgress));
    hide NoBreak;
  }

  lemma BoundsIsPlain()
    ensures IsPlain(ErrorText(OutOfBounds))
  {
    NoneIsBreak(ErrorText(OutOfBounds));
    hide NoBreak;
  }

  lemma FailureIsPlain()
    ensures IsPlain(ErrorText(GuardCheck)) && IsPlain(ErrorText(DriverError))
  {
    NoneIsBreak(ErrorText(GuardCheck));
    NoneIsBreak(ErrorText(DriverError));
    hide NoBreak;
  }

  lemma TextsArePlain(error: ReadError)
    requires !error.Injected?
    ensures IsPlain(ErrorText(error))
  {
    hide ErrorText, IsPlain;
    match error
    case HostSimulation => SimulationIsPlain();
    case NotDisarmed => GuardIsPlain();
    case NotProbed => ProbeIsPlain();
    case BadArgument => ArgumentIsPlain();
    case OutOfBounds => BoundsIsPlain();
    case GuardCheck => FailureIsPlain();
    case DriverError => FailureIsPlain();
    case _ => BusyIsPlain();
  }

  /** Every refusal the firmware prints is reported to the host as that error. */
  lemma RefusalsAreErrors(error: ReadError, sector: nat)
    requires !error.Injected?
    ensures Verdict(ErrorReply(ErrorLine(error)), sector) == Error(sector, ErrorLine(error))
  {
    hide ErrorText, Verdict, NoBreak, ErrorReply;
    TextsArePlain(error);
    PlainErrorLine(ErrorText(error));
    ErrorReplyIsError(sector, ErrorLine(error));
  }

  lemma PlainErrorLine(text: string)
    requires IsPlain(text)
    ensures var line := "sd_data_error: " + text; IsErrorLine(line) && NoBreak(line) && Tight(line) && |line| <= 80
  {
    NoneIsBreak("sd_data_error: ");
    hide NoBreak, IsSpace;
    NoBreakConcat("sd_data_error: ", text);
    SaysError(text);
    var line := "sd_data_error: " + text;
    SpaceIsNoWord(line[0]);
    SpaceIsNoWord(line[|line| - 1]);
    hide IsErrorLine;
  }

  lemma SaysError(text: string)
    ensures IsErrorLine("sd_data_error: " + text)
  {
    assert "sd_data_error: " + text == "sd_data_error:" + (" " + text);
  }

  lemma FlipChanges(data: seq<byte>)
    requires |data| == SECTOR_BYTES
    ensures FlipByte(data) != data && FlipByte(data)[..100] == data[..100] && FlipByte(data)[101..] == data[101..]
  {
    FlippedBits(data[100]);
  }

  lemma FlippedBits(b: byte)
    ensures FlipBits(b) != b
  {
    var v := b as bv8;
    assert v ^ 0x5a != v;
    BitsRoundTrip(v ^ 0x5a);
  }

  lemma BitsRoundTrip(v: bv8)
    ensures (v as int) as bv8 == v
  {
  }

  /** The text of a reply that ends an `sd read`. */
  function ReplyText(e: Event): string
    requires e.Terminated? || e.DataSent?
  {
    if e.Terminated? then ErrorReply(ErrorLine(e.error)) else PrintReply(e.shown, e.bytes, e.crc)
  }

  /** The host is never deceived: over every run, whatever the faults, each data reply the firmware
    * sends is parsed, as the answer to the sector it was read for, either as exactly that sector's
    * bytes, or as a CRC mismatch or a malformed reply; data exactly when neither the CRC nor the
    * wrong-sector fault touched it. Each refusal of its own is parsed as that error, for any sector. */
  lemma HostIsNotDeceived(fw: Firmware, inputs: seq<Input>, i: nat)
    requires IsStart(fw) && GoodCard(fw) && i < |Run(fw, inputs).events|
    ensures var e := Run(fw, inputs).events[i];
      && (e.DataSent? ==>
            var verdict := Verdict(ReplyText(e), e.sector);
            && OnCard(fw.card, e.sector)
            && (verdict == Data(e.sector, fw.card.value.Read(e.sector), e.crc) || verdict.CrcMismatch?
                || verdict.Malformed?)
            && (verdict.Data? <==> e.shown == e.sector && e.bytes == fw.card.value.Read(e.sector)))
      && (e.Terminated? && !e.error.Injected? ==>
            forall sector: nat :: Verdict(ReplyText(e), sector) == Error(sector, ErrorLine(e.error)))
  {
    hide Run, Verdict, ErrorLine, ErrorReply, PrintReply, OnCard;
    var e := Run(fw, inputs).events[i];
    if e.DataSent? {
      SentIsTruthful(fw, inputs, i);
    } else if e.Terminated? && !e.error.Injected? {
      forall sector: nat ensures Verdict(ReplyText(e), sector) == Error(sector, ErrorLine(e.error)) {
        RefusalsAreErrors(e.error, sector);
      }
    }
  }

  lemma SentIsTruthful(fw: Firmware, inputs: seq<Input>, i: nat)
    requires IsStart(fw) && GoodCard(fw) && i < |Run(fw, inputs).events| && Run(fw, inputs).events[i].DataSent?
    ensures var e := Run(fw, inputs).events[i];
      var verdict := Verdict(PrintReply(e.shown, e.bytes, e.crc), e.sector);
      && OnCard(fw.card, e.sector)
      && (verdict == Data(e.sector, fw.card.value.Read(e.sector), e.crc) || verdict.CrcMismatch? || verdict.Malformed?)
      && (verdict.Data? <==> e.shown == e.sector && e.bytes == fw.card.value.Read(e.sector))
  {
    hide Run, Verdict, PrintReply, FormatCrc32, Crc, FlipByte, Summarize, ProbedBefore;
    ReadsAreSafe(fw, inputs, i);
    var e := Run(fw, inputs).events[i];
    var data := fw.card.value.Read(e.sector);
    FormattedShape(Crc(data));
    FlipChanges(data);
    if e.shown != e.sector {
      WrongSectorIsMalformed(e.sector, e.shown, e.bytes, e.crc);
    } else if e.bytes == data {
      RoundTrip(e.sector, data);
    } else {
      BurstIsMismatch(e.sector, data, e.bytes, 100, 1);
    }
  }

  // ---------------------------------------------------------------- the read the host asks for

  lemma {:induction false} NumberOfDecimal(n: nat)
    ensures IsDecimal(Decimal(n)) && NumberOf(Decimal(n)) == n
  {
    var d := Decimal(n);
    if n >= 10 {
      NumberOfDecimal(n / 10);
      assert d[..|d| - 1] == Decimal(n / 10);
    } else {
      assert d[..|d| - 1] == "";
    }
  }

  /** `formatSdReadCommand` */
  function ReadCommand(sector: nat): string { "sd read " + Decimal(sector) }

  /** The command the host prints is the one the firmware reads. */
  lemma CommandIsUnderstood(sector: nat)
    requires sector <= MAX_SECTOR
    ensures VerbOf(ReadCommand(sector)) == Read && ReadArgument(ReadCommand(sector)) == Some(sector)
  {
    hide Decimal, NumberOf, IsDecimal;
    NumberOfDecimal(sector);
    assert ReadCommand(sector)[8..] == Decimal(sector);
  }

  /** A session in which an in-range sector can be read. */
  predicate CanRead(fw: Firmware, sector: nat) {
    && fw.noReplyOnce == [] && !fw.hostSimulation && !fw.recorderOwnsCard && !fw.armed && !fw.stale
    && fw.phase == Done && fw.cardReady && fw.readActive.None? && OnCard(fw.card, sector)
    && NextFault(fw.faults, sector).None?
  }

  /** Then the command and the poll answer with the sector, and leave the session as it was. */
  lemma ReadSucceeds(fw: Firmware, sector: nat)
    requires CanRead(fw, sector)
    ensures var after := Next(Next(fw, Command(ReadCommand(sector))), ReadTimer);
      var data := fw.card.value.Read(sector);
      && |after.events| > 0
      && after.events[|after.events| - 1] == DataSent(sector, sector, data, FormatCrc32(Crc(data)))
      && CanRead(after, sector) && after.readsInFlight == fw.readsInFlight && after.faults == fw.faults
         && after.card == fw.card
  {
    hide ReadCommand, VerbOf, ReadArgument, Crc, FormatCrc32, FlipByte;
    CommandIsUnderstood(sector);
    var begun := Next(fw, Command(ReadCommand(sector)));
    BeginsRead(fw, ReadCommand(sector), sector);
    assert ReadCanFire(begun);
  }

  lemma BeginsRead(fw: Firmware, line: string, sector: nat)
    requires CanRead(fw, sector) && VerbOf(line) == Read && ReadArgument(line) == Some(sector)
    ensures AfterLine(fw, line)
         == Log(Receive(fw), ReadBegan(sector)).(readActive := Some(ActiveRead(sector, None, true)))
  {
    hide VerbOf, ReadArgument, Readable;
    assert ShiftFault(fw.faults, sector) == fw.faults;
    assert sector < fw.card.value.Count() by { InRange(fw.card.value, sector); }
  }

  lemma InRange(card: Card, sector: nat)
    requires Readable(card, sector)
    ensures sector < card.Count()
  {
  }

  // ---------------------------------------------------------------- the machine as an object

  lemma ActiveCanFire(fw: Firmware)
    requires Inv(fw)
    ensures ReadCanFire(fw) <==> fw.readActive.Some? && fw.readActive.value.timer
    ensures ReadCanFire(fw) ==> fw.readsInFlight > 0 && OnCard(fw.card, fw.readActive.value.sector)
  {
    hide Summarize;
  }

  lemma {:induction false} FirstRemoved(lines: seq<string>, line: string, i: nat)
    requires i < |lines| && lines[i] == line && line !in lines[..i]
    ensures RemoveFirst(lines, line) == lines[..i] + lines[i + 1..]
    decreases i
  {
    if i > 0 {
      assert lines[0] in lines[..i];
      assert lines[1..][..i - 1] == lines[..i][1..];
      FirstRemoved(lines[1..], line, i - 1);
    }
  }

  class MockSdCliFirmware {
    const card: Option<Card>
    const probeFinite: bool
    var hostSimulation: bool
    var armed: bool
    var recorderOwnsCard: bool
    var stale: bool
    var phase: Phase
    var cardReady: bool
    var readsWhileActive: nat
    var readsInFlight: nat
    var maxReadsInFlight: nat
    var noReplyOnce: seq<string>
    var readActive: Option<ActiveRead>
    var probeTimer: bool
    var faults: map<nat, seq<Fault>>
    /** Every reply and state change, in order. */
    var events: seq<Event>

    ghost function Now(): Firmware
      reads this
    {
      Firmware(card, hostSimulation, armed, recorderOwnsCard, stale, probeFinite, phase, cardReady, noReplyOnce,
               readActive, probeTimer, faults, readsInFlight, maxReadsInFlight, readsWhileActive, events)
    }

    constructor (card: Option<Card>, hostSimulation: bool, armed: bool, recorderOwnsCard: bool, stale: bool,
                 probeFinite: bool, done: bool)
      ensures Now() == Start(card, hostSimulation, armed, recorderOwnsCard, stale, probeFinite, done)
    {
      this.card, this.probeFinite := card, probeFinite;
      this.hostSimulation, this.armed := hostSimulation, armed;
      this.recorderOwnsCard, this.stale := recorderOwnsCard, stale;
      phase := if done then Done else Idle;
      cardReady := done && card.Some?;
      readsWhileActive, readsInFlight, maxReadsInFlight := 0, 0, 0;
      noReplyOnce, readActive, probeTimer, faults := [], None, false, map[];
      events := [Started(armed, stale, done)];
    }

    method Record(e: Event)
      modifies `events
      ensures Now() == Log(old(Now()), e)
    {
      events := events + [e];
    }

    method EnterPhase(phase': Phase, ready: bool)
      modifies `phase, `cardReady
      ensures Now() == old(Now()).(phase := phase', cardReady := ready)
    {
      phase, cardReady := phase', ready;
    }

    /** Print an error reply to the open `sd read` and count it closed. */
    method EmitError(error: ReadError)
      requires readsInFlight > 0
      modifies this`events, this`readsInFlight
      ensures Now() == Terminate(old(Now()), error)
    {
      Record(Terminated(error));
      readsInFlight := readsInFlight - 1;
    }

    /** Take the first occurrence of `line` out of the lines to leave unanswered. */
    method TakeSilence(line: string) returns (silent: bool)
      modifies this`noReplyOnce
      ensures silent == (line in old(noReplyOnce))
      ensures noReplyOnce == if silent then RemoveFirst(old(noReplyOnce), line) else old(noReplyOnce)
    {
      var i := 0;
      assert noReplyOnce[..0] == [];
      while i < |noReplyOnce| && noReplyOnce[i] != line
        invariant i <= |noReplyOnce| && line !in noReplyOnce[..i]
      {
        i := i + 1;
      }
      silent := i < |noReplyOnce|;
      if silent {
        FirstRemoved(noReplyOnce, line, i);
        noReplyOnce := noReplyOnce[..i] + noReplyOnce[i + 1..];
      } else {
        assert noReplyOnce == noReplyOnce[..i];
      }
    }

    method Handle(line: string)
      requires Inv(Now())
      modifies this
      ensures Now() == Next(old(Now()), Command(line)) && Inv(Now())
    {
      hide Inv, RemoveFirst, AfterHeard, AfterReadTimer, AfterProbeTimer, ReadCanFire;
      HandleKeeps(Now(), line);
      var silent := TakeSilence(line);
      if !silent { HandleHeard(line); }
    }

    method HandleHeard(line: string)
      modifies `events, `phase, `cardReady, `stale, `probeTimer, `readActive, `readsInFlight, `maxReadsInFlight,
               `faults, `readsWhileActive
      ensures Now() == AfterHeard(old(Now()), line)
    {
      hide VerbOf, AfterRead, AfterSd;
      var verb := VerbOf(line);
      if verb == Read {
        CountReceived();
        HandleRead(line);
      } else if verb == NotSd {
        Record(Said(NotForTheCard));
      } else {
        HandleSd(verb);
      }
    }

    method CountReceived()
      modifies `events, `readsInFlight, `maxReadsInFlight
      ensures Now() == Receive(old(Now()))
    {
      readsInFlight := readsInFlight + 1;
      if readsInFlight > maxReadsInFlight { maxReadsInFlight := readsInFlight; }
      Record(Received);
    }

    method HandleSd(verb: Verb)
      modifies `events, `phase, `cardReady, `stale, `probeTimer, `readActive, `readsInFlight
      ensures Now() == AfterSd(old(Now()), verb)
    {
      hide AfterCancelRead, AfterCancelProbe, AfterProbe;
      if hostSimulation || recorderOwnsCard {
        Record(Said(Unavailable));
      } else if readActive.Some? {
        if verb == Cancel {
          CancelRead();
        } else {
          Record(Said(Refusing));
        }
      } else if verb == Cancel && ProbeBusy(phase) {
        CancelProbe();
      } else if verb == Probe && (armed || ProbeBusy(phase)) {
        Record(Said(Refusing));
      } else if verb == Probe {
        BeginProbe();
      } else {
        Record(Said(Status));
      }
    }

    method HandleRead(line: string)
      requires readsInFlight > 0
      modifies `events, `readsInFlight, `readActive, `faults, `readsWhileActive
      ensures Now() == AfterRead(old(Now()), line)
    {
      hide AfterBegin;
      if hostSimulation {
        EmitError(HostSimulation);
      } else if recorderOwnsCard {
        EmitError(BlackboxBusy);
      } else if readActive.Some? {
        readsWhileActive := readsWhileActive + 1;
        EmitError(ReadInProgress);
      } else {
        BeginRead(line);
      }
    }

    method CancelProbe()
      modifies `events, `probeTimer, `phase
      ensures Now() == AfterCancelProbe(old(Now()))
    {
      probeTimer := false;
      phase := CancelledPhase;
      Record(ProbeCancelled);
    }

    method BeginProbe()
      modifies `events, `phase, `cardReady, `stale, `probeTimer
      ensures Now() == AfterProbe(old(Now()))
    {
      EnterPhase(Initializing, false);
      StartTimer();
      Record(ProbeStarted);
    }

    method StartTimer()
      modifies `stale, `probeTimer
      ensures Now() == old(Now()).(stale := false, probeTimer := probeFinite)
    {
      stale := false;
      probeTimer := probeFinite;
    }

    method CancelRead()
      requires readActive.Some?
      modifies `events, `readsInFlight, `readActive, `phase
      ensures Now() == AfterCancelRead(old(Now()))
    {
      EndRead();
      if readsInFlight > 0 { readsInFlight := readsInFlight - 1; }
      phase := CancelledPhase;
      Record(ReadCancelled);
    }

    method EndRead()
      modifies `readActive
      ensures Now() == old(Now()).(readActive := None)
    {
      readActive := None;
    }

    method BeginRead(line: string)
      requires readsInFlight > 0
      modifies `events, `readsInFlight, `readActive, `faults
      ensures Now() == AfterBegin(old(Now()), line)
    {
      hide ReadArgument, NextFault, ShiftFault, Terminate;
      if armed {
        EmitError(NotDisarmed);
        return;
      }
      if phase != Done || !cardReady || card.None? {
        EmitError(NotProbed);
        return;
      }
      var argument := ReadArgument(line);
      if argument.None? {
        EmitError(BadArgument);
        return;
      }
      var sector := argument.value;
      if sector >= card.value.Count() {
        EmitError(OutOfBounds);
        return;
      }
      var fault := TakeFault(sector);
      if fault.Some? && fault.value.Immediate? {
        EmitError(Injected(fault.value.line));
        return;
      }
      readActive := Some(ActiveRead(sector, fault, fault != Some(SilentFault)));
      Record(ReadBegan(sector));
    }

    /** `queue?.shift()` */
    method TakeFault(sector: nat) returns (fault: Option<Fault>)
      modifies `faults
      ensures fault == NextFault(old(faults), sector)
      ensures Now() == old(Now()).(faults := ShiftFault(old(faults), sector))
    {
      fault := None;
      if sector in faults && faults[sector] != [] {
        fault := Some(faults[sector][0]);
        faults := faults[sector := faults[sector][1..]];
      }
    }

    method FailActive(e: Event, phase': Phase, ready: bool, error: ReadError)
      requires readsInFlight > 0
      modifies `events, `readsInFlight, `readActive, `phase, `cardReady
      ensures Now() == FailRead(old(Now()), e, phase', ready, error)
    {
      EndRead();
      Record(e);
      EnterPhase(phase', ready);
      EmitError(error);
    }

    /** The read's timer: it does nothing once the read was cancelled or closed. */
    method ReadTimerFires()
      requires Inv(Now())
      modifies this
      ensures Now() == Next(old(Now()), ReadTimer) && Inv(Now())
    {
      hide Inv, ReadCanFire, FailRead, SendData, DataReply, SaysDriverError, AfterLine, AfterProbeTimer;
      StepKeeps(Now(), ReadTimer);
      ActiveCanFire(Now());
      if readActive.None? || !readActive.value.timer { return; }
      var active := readActive.value;
      if active.fault.Some? && active.fault.value.Async? {
        var driver := SaysDriverError(active.fault.value.line);
        FailActive(AsyncFailed,
                   if driver then Failed else CancelledPhase, cardReady, Injected(active.fault.value.line));
      } else if armed {
        FailActive(GuardFailed, CancelledPhase, cardReady, GuardCheck);
      } else if stale {
        FailActive(DriverFailed, Failed, false, DriverError);
      } else {
        SendSector(active);
      }
    }

    method SendSector(active: ActiveRead)
      requires readsInFlight > 0 && OnCard(card, active.sector)
      modifies `events, `readsInFlight, `readActive
      ensures Now() == SendData(old(Now()), DataReply(active, card.value.Read(active.sector)))
    {
      hide Crc, FormatCrc32, FlipBits;
      var data := card.value.Read(active.sector);
      var crc := FormatCrc32(Crc(data));
      if active.fault == Some(CrcFault) { data := data[100 := FlipBits(data[100])]; }
      var shown := if active.fault.Some? && active.fault.value.WrongSector?
                   then active.fault.value.shown else active.sector;
      EndRead();
      Record(DataSent(active.sector, shown, data, crc));
      readsInFlight := readsInFlight - 1;
    }

    method ProbeTimerFires()
      requires Inv(Now())
      modifies `events, `probeTimer, `phase, `cardReady
      ensures Now() == Next(old(Now()), ProbeTimer) && Inv(Now())
    {
      hide Inv, AfterLine, AfterReadTimer, AfterProbeTimer, ReadCanFire;
      StepKeeps(Now(), ProbeTimer);
      if probeTimer { FinishProbe(); }
    }

    method FinishProbe()
      modifies `events, `probeTimer, `phase, `cardReady
      ensures Now() == AfterProbeTimer(old(Now()))
    {
      probeTimer := false;
      if phase != Initializing { return; }
      if card.Some? {
        Record(ProbeDone);
        EnterPhase(Done, true);
      } else {
        phase := Failed;
      }
    }

    method ChangeArmed(armed': bool)
      requires Inv(Now())
      modifies `events, `armed
      ensures Now() == Next(old(Now()), SetArmed(armed')) && Inv(Now())
    {
      hide Inv, AfterLine, AfterReadTimer, ReadCanFire;
      StepKeeps(Now(), SetArmed(armed'));
      events := events + [ArmChanged(armed')];
      armed := armed';
    }

    method CycleRecording()
      requires Inv(Now())
      modifies `events, `stale
      ensures Now() == Next(old(Now()), RecordingCycle) && Inv(Now())
    {
      hide Inv, AfterLine, AfterReadTimer, ReadCanFire;
      StepKeeps(Now(), RecordingCycle);
      events := events + [Recorded];
      stale := true;
    }

    method QueueFaults(sector: nat, added: seq<Fault>)
      requires Inv(Now())
      modifies `faults
      ensures Now() == Next(old(Now()), AddFault(sector, added)) && Inv(Now())
    {
      hide Inv, AfterLine, AfterReadTimer, AfterProbeTimer, ReadCanFire, Queued;
      StepKeeps(Now(), AddFault(sector, added));
      AppendFaults(sector, added);
    }

    method AppendFaults(sector: nat, added: seq<Fault>)
      modifies `faults
      ensures Now() == old(Now()).(faults := Queued(old(faults), sector, added))
    {
      var queue := if sector in faults then faults[sector] else [];
      faults := faults[sector := queue + added];
    }
  }
}
