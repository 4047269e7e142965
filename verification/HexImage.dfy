/** check_tmotor_image.py: what an Intel HEX file has to be for its image to be accepted, and what the
  * accepted image then is. The record format is section 2 of the Intel Hexadecimal Object File Format
  * Specification, Rev. A. */
module HexImage {
  import opened Bytes
  import opened SdRead

  datatype Board = MatekF722Px | TmotorF7V2 | KakuteF7Hdv

  datatype Record = Record(address: nat, kind: nat, data: seq<byte>)

  type Memory = map<nat, byte>

  // ---------------------------------------------------------------- from text to records

  /** `str.isspace` */
  predicate IsSpaceChar(c: char) {
    || c in "\t\n\U{000B}\U{000C}\r\U{001C}\U{001D}\U{001E}\U{001F} \U{0085}"
    || c in "\U{00A0}\U{1680}\U{2028}\U{2029}\U{202F}\U{205F}\U{3000}"
    || '\U{2000}' <= c <= '\U{200A}'
  }

  function StripStart(s: string): string { if s != "" && IsSpaceChar(s[0]) then StripStart(s[1..]) else s }

  function StripEnd(s: string): string { if s != "" && IsSpaceChar(s[|s| - 1]) then StripEnd(s[..|s| - 1]) else s }

  function Strip(s: string): string { StripEnd(StripStart(s)) }

  predicate IsAsciiSpace(c: char) { c in "\t\n\U{000B}\U{000C}\r " }

  function HexDigitOf(c: char): (v: Option<nat>)
    ensures v.Some? ==> v.value < 16
  {
    if '0' <= c <= '9' then Some((c - '0') as nat)
    else if 'A' <= c <= 'F' then Some((c - 'A') as nat + 10)
    else if 'a' <= c <= 'f' then Some((c - 'a') as nat + 10)
    else None
  }

  /** `bytes.fromhex`: pairs of digits of either case, with white space between pairs. */
  function FromHex(s: string): Option<seq<byte>> {
    if s == "" then Some([])
    else if IsAsciiSpace(s[0]) then FromHex(s[1..])
    else if |s| < 2 || HexDigitOf(s[0]).None? || HexDigitOf(s[1]).None? then None
    else
      match FromHex(s[2..])
      case None => None
      case Some(rest) => Some([16 * HexDigitOf(s[0]).value + HexDigitOf(s[1]).value] + rest)
  }

  function Sum(bytes: seq<byte>): nat {
    if bytes == [] then 0 else Sum(bytes[..|bytes| - 1]) + bytes[|bytes| - 1]
  }

  /** A record whose byte count and checksum are right. */
  predicate IsRecord(bytes: seq<byte>) {
    |bytes| >= 5 && |bytes| == bytes[0] as int + 5 && Sum(bytes) % 256 == 0
  }

  function RecordOf(bytes: seq<byte>): Record
    requires IsRecord(bytes)
  {
    Record(256 * (bytes[1] as int) + bytes[2] as int, bytes[3], bytes[4..|bytes| - 1])
  }

  predicate IsRecordLine(line: string) {
    line != "" && line[0] == ':' && FromHex(line[1..]).Some? && IsRecord(FromHex(line[1..]).value)
  }

  function RecordIn(line: string): Record
    requires IsRecordLine(line)
  {
    RecordOf(FromHex(line[1..]).value)
  }

  /** The records of a file; lines of white space do not count. */
  function RecordsOf(lines: seq<string>): Option<seq<Record>> {
    if lines == [] then Some([])
    else
      match RecordsOf(lines[..|lines| - 1])
      case None => None
      case Some(records) =>
        var line := Strip(lines[|lines| - 1]);
        if line == "" then Some(records)
        else if IsRecordLine(line) then Some(records + [RecordIn(line)])
        else None
  }

  // ---------------------------------------------------------------- records that load

  function BigEndian(data: seq<byte>): nat {
    if data == [] then 0 else 256 * BigEndian(data[..|data| - 1]) + data[|data| - 1]
  }

  predicate KindOk(r: Record) {
    match r.kind
    case 0 => r.address + |r.data| <= 0x10000
    case 1 => |r.data| == 0 && r.address == 0
    case 4 => |r.data| == 2 && r.address == 0
    case 5 => |r.data| == 4 && r.address == 0 && InFlash(BigEndian(r.data) - BigEndian(r.data) % 2)
    case _ => false
  }

  predicate InFlash(at: int) { 0x0800_0000 <= at < 0x0808_0000 }

  /** Where the board's image may put bytes. */
  predicate InWindow(board: Board, at: nat) {
    InFlash(at) && !(board == MatekF722Px && 0x0800_4000 <= at < 0x0800_C000)
  }

  /** The upper address half in force at record `i`: the last one set before it. */
  function Upper(records: seq<Record>, i: nat): nat
    requires i <= |records|
  {
    if i == 0 then 0
    else if records[i - 1].kind == 4 then 0x10000 * BigEndian(records[i - 1].data)
    else Upper(records, i - 1)
  }

  function StartOf(records: seq<Record>, i: nat): nat
    requires i < |records|
  {
    Upper(records, i) + records[i].address
  }

  /** Record `i` writes the byte at `at`. */
  predicate Covers(records: seq<Record>, i: nat, at: nat) {
    i < |records| && records[i].kind == 0 && StartOf(records, i) <= at < StartOf(records, i) + |records[i].data|
  }

  ghost predicate Once(records: seq<Record>) {
    forall i: nat, j: nat, at: nat :: i < j && Covers(records, i, at) ==> !Covers(records, j, at)
  }

  ghost predicate Inside(board: Board, records: seq<Record>) {
    forall i: nat, at: nat :: Covers(records, i, at) ==> InWindow(board, at)
  }

  /** Every record is of a known kind and right for it, none follows the end record, and the data
    * records write inside the window, no address twice. */
  ghost predicate Sound(board: Board, records: seq<Record>) {
    && (forall i :: 0 <= i < |records| ==> KindOk(records[i]))
    && (forall i :: 0 <= i < |records| - 1 ==> records[i].kind != 1)
    && Inside(board, records) && Once(records)
  }

  /** The memory holds at `at` what record `i` writes there. */
  predicate CellHolds(records: seq<Record>, memory: Memory, i: nat, at: nat) {
    && i < |records| && 0 <= at - StartOf(records, i) < |records[i].data|
    && at in memory && memory[at] == records[i].data[at - StartOf(records, i)]
  }

  /** The memory is exactly the union of the data records. */
  ghost predicate MemoryIs(records: seq<Record>, memory: Memory) {
    && (forall i: nat, at: nat :: Covers(records, i, at) ==> CellHolds(records, memory, i, at))
    && (forall at :: at in memory ==> exists i: nat :: Covers(records, i, at))
  }

  function DataBytes(records: seq<Record>): nat {
    if records == [] then 0
    else
      var r := records[|records| - 1];
      DataBytes(records[..|records| - 1]) + if r.kind == 0 then |r.data| else 0
  }

  /** The file loads: its records are sound, the last one is the end record, and some data is there. */
  ghost predicate Loads(board: Board, lines: seq<string>) {
    match RecordsOf(lines)
    case None => false
    case Some(records) =>
      Sound(board, records) && records != [] && records[|records| - 1].kind == 1 && DataBytes(records) > 0
  }

  // ---------------------------------------------------------------- prefixes

  lemma {:induction false} UpperPrefix(records: seq<Record>, more: seq<Record>, i: nat)
    requires i <= |records|
    ensures Upper(records + more, i) == Upper(records, i)
  {
    if i > 0 { UpperPrefix(records, more, i - 1); }
  }

  lemma CoversPrefix(records: seq<Record>, more: seq<Record>, i: nat, at: nat)
    requires i < |records|
    ensures Covers(records + more, i, at) <==> Covers(records, i, at)
    ensures StartOf(records + more, i) == StartOf(records, i)
  {
    UpperPrefix(records, more, i);
  }

  lemma SoundPrefix(board: Board, records: seq<Record>, more: seq<Record>)
    requires Sound(board, records + more)
    ensures Sound(board, records)
  {
    hide KindOk, InWindow, Covers;
    var all := records + more;
    forall i: nat, at: nat | Covers(records, i, at) ensures InWindow(board, at) {
      CoveredIndex(records, i, at);
      CoversPrefix(records, more, i, at);
    }
    forall i: nat, j: nat, at: nat | i < j && Covers(records, i, at) ensures !Covers(records, j, at) {
      CoveredIndex(records, i, at);
      CoversPrefix(records, more, i, at);
      if j < |records| { CoversPrefix(records, more, j, at); } else { NotCovered(records, j, at); }
    }
    assert forall i :: 0 <= i < |records| ==> all[i] == records[i];
  }

  lemma CoveredIndex(records: seq<Record>, i: nat, at: nat)
    requires Covers(records, i, at)
    ensures i < |records| && 0 <= at - StartOf(records, i) < |records[i].data|
  {
  }

  lemma NotCovered(records: seq<Record>, i: nat, at: nat)
    requires i >= |records|
    ensures !Covers(records, i, at)
  {
  }

  lemma {:induction false} RecordsPrefix(lines: seq<string>, k: nat)
    requires k <= |lines| && RecordsOf(lines).Some?
    ensures RecordsOf(lines[..k]).Some? && RecordsOf(lines[..k]).value <= RecordsOf(lines).value
  {
    hide Strip, IsRecordLine;
    if k < |lines| {
      var front := lines[..|lines| - 1];
      RecordsPrefix(front, k);
      assert front[..k] == lines[..k];
    } else {
      assert lines[..k] == lines;
    }
  }

  // ---------------------------------------------------------------- one more record

  /** The bytes fit: inside the window, on addresses nothing was written to. */
  predicate Fits(board: Board, memory: Memory, start: nat, data: seq<byte>) {
    forall at :: start <= at < start + |data| ==> InWindow(board, at) && at !in memory
  }

  function Placed(memory: Memory, start: nat, data: seq<byte>): (m: Memory)
    ensures forall at :: at in m <==> at in memory || start <= at < start + |data|
    ensures forall at :: at in m ==> m[at] == if start <= at < start + |data| then data[at - start] else memory[at]
  {
    if data == [] then memory
    else Placed(memory, start, data[..|data| - 1])[start + |data| - 1 := data[|data| - 1]]
  }

  lemma NewRecord(records: seq<Record>, r: Record)
    ensures var all := records + [r]; var n := |records|;
      && StartOf(all, n) == Upper(records, n) + r.address
      && (forall i: nat, at: nat :: i < n ==> (Covers(all, i, at) <==> Covers(records, i, at)))
      && (forall i: nat :: i < n ==> StartOf(all, i) == StartOf(records, i))
      && (forall at: nat :: Covers(all, n, at) <==>
            r.kind == 0 && Upper(records, n) + r.address <= at < Upper(records, n) + r.address + |r.data|)
  {
    hide Upper;
    var all := records + [r];
    UpperPrefix(records, [r], |records|);
    forall i: nat, at: nat | i < |records|
      ensures (Covers(all, i, at) <==> Covers(records, i, at)) && StartOf(all, i) == StartOf(records, i)
    {
      CoversPrefix(records, [r], i, at);
    }
    forall i: nat | i < |records| ensures StartOf(all, i) == StartOf(records, i) { CoversPrefix(records, [r], i, 0); }
  }

  /** Adding a record that is not data. */
  lemma AddOther(board: Board, records: seq<Record>, r: Record, memory: Memory)
    requires Sound(board, records) && MemoryIs(records, memory) && r.kind != 0
    ensures Sound(board, records + [r]) <==> KindOk(r) && (records == [] || records[|records| - 1].kind != 1)
    ensures MemoryIs(records + [r], memory)
  {
    hide KindOk, InWindow, Covers, Upper;
    var all := records + [r];
    NewRecord(records, r);
    forall i: nat, at: nat ensures Covers(all, i, at) <==> i < |records| && Covers(records, i, at) {
      if i > |records| { NotCovered(all, i, at); }
    }
    assert all[|records|] == r && forall i :: 0 <= i < |records| ==> all[i] == records[i];
    forall i: nat, at: nat | Covers(records, i, at) ensures i < |records| { CoveredIndex(records, i, at); }
    if Sound(board, all) { assert KindOk(all[|records|]); }
  }

  /** Adding a data record. */
  lemma AddData(board: Board, records: seq<Record>, r: Record, memory: Memory)
    requires Sound(board, records) && MemoryIs(records, memory) && r.kind == 0
    ensures var start := Upper(records, |records|) + r.address;
      && (Sound(board, records + [r]) <==>
            && KindOk(r) && (records == [] || records[|records| - 1].kind != 1)
            && Fits(board, memory, start, r.data))
      && (Fits(board, memory, start, r.data) ==> MemoryIs(records + [r], Placed(memory, start, r.data)))
  {
    hide InWindow, Covers, Upper, StartOf, KindOk, MemoryIs, Once, Inside, Fits, Placed;
    var all, n := records + [r], |records|;
    var start := Upper(records, n) + r.address;
    assert all[n] == r && forall i :: 0 <= i < n ==> all[i] == records[i];
    if Inside(board, all) && Once(all) { SoundFits(board, records, r, memory); }
    if Fits(board, memory, start, r.data) {
      FittingIsSound(board, records, r, memory);
      FitsFresh(board, memory, start, r.data);
      FittingMemory(records, r, memory, start);
    }
    if Sound(board, all) { assert KindOk(all[n]); }
  }

  lemma FitsFresh(board: Board, memory: Memory, start: nat, data: seq<byte>)
    requires Fits(board, memory, start, data)
    ensures forall at :: start <= at < start + |data| ==> at !in memory
  {
  }

  lemma MemoryIsCovered(records: seq<Record>, r: Record, memory: Memory, at: nat) returns (i: nat)
    requires MemoryIs(records, memory) && at in memory
    ensures i < |records| && Covers(records + [r], i, at)
  {
    hide Covers;
    i :| Covers(records, i, at);
    CoveredIndex(records, i, at);
    CoversPrefix(records, [r], i, at);
  }

  lemma NewCovers(records: seq<Record>, r: Record, at: nat)
    requires r.kind == 0
    requires Upper(records, |records|) + r.address <= at < Upper(records, |records|) + r.address + |r.data|
    ensures Covers(records + [r], |records|, at)
  {
    UpperPrefix(records, [r], |records|);
  }

  lemma SoundFits(board: Board, records: seq<Record>, r: Record, memory: Memory)
    requires MemoryIs(records, memory) && r.kind == 0 && Inside(board, records + [r]) && Once(records + [r])
    ensures Fits(board, memory, Upper(records, |records|) + r.address, r.data)
  {
    hide InWindow, Covers, Upper, MemoryIs;
    var start := Upper(records, |records|) + r.address;
    forall at: nat | start <= at < start + |r.data| ensures InWindow(board, at) && at !in memory {
      NewCovers(records, r, at);
      if at in memory { var i := MemoryIsCovered(records, r, memory, at); }
    }
  }

  lemma FittingIsSound(board: Board, records: seq<Record>, r: Record, memory: Memory)
    requires Sound(board, records) && MemoryIs(records, memory) && r.kind == 0
    requires Fits(board, memory, Upper(records, |records|) + r.address, r.data)
    ensures Inside(board, records + [r]) && Once(records + [r])
  {
    hide InWindow, Covers, Upper, StartOf, KindOk;
    var all, n := records + [r], |records|;
    forall i: nat, at: nat | Covers(all, i, at) ensures InWindow(board, at) {
      CoveredIndex(all, i, at);
      if i < n { CoversPrefix(records, [r], i, at); } else { NewCovered(records, r, at); }
    }
    forall i: nat, j: nat, at: nat | i < j && Covers(all, i, at) ensures !Covers(all, j, at) {
      CoveredIndex(all, i, at);
      if j > n {
        NotCovered(all, j, at);
      } else {
        CoversPrefix(records, [r], i, at);
        if j < n { CoversPrefix(records, [r], j, at); } else { NewCovered(records, r, at); }
      }
    }
  }

  /** The addresses the new record covers. */
  lemma NewCovered(records: seq<Record>, r: Record, at: nat)
    requires r.kind == 0
    ensures Covers(records + [r], |records|, at)
       <==> Upper(records, |records|) + r.address <= at < Upper(records, |records|) + r.address + |r.data|
    ensures StartOf(records + [r], |records|) == Upper(records, |records|) + r.address
  {
    UpperPrefix(records, [r], |records|);
  }

  lemma FittingMemory(records: seq<Record>, r: Record, memory: Memory, start: nat)
    requires MemoryIs(records, memory) && r.kind == 0 && start == Upper(records, |records|) + r.address
    requires forall at :: start <= at < start + |r.data| ==> at !in memory
    ensures MemoryIs(records + [r], Placed(memory, start, r.data))
  {
    hide Covers, Upper, StartOf, Placed, CellHolds;
    var all, n := records + [r], |records|;
    var memory' := Placed(memory, start, r.data);
    forall i: nat, at: nat | Covers(all, i, at) ensures CellHolds(all, memory', i, at) {
      FittingCell(records, r, memory, start, i, at);
    }
    forall at | at in memory' ensures exists i: nat :: Covers(all, i, at) {
      if at in memory { var i := MemoryIsCovered(records, r, memory, at); } else { NewCovered(records, r, at); }
    }
  }

  lemma FittingCell(records: seq<Record>, r: Record, memory: Memory, start: nat, i: nat, at: nat)
    requires MemoryIs(records, memory) && r.kind == 0 && start == Upper(records, |records|) + r.address
    requires forall a :: start <= a < start + |r.data| ==> a !in memory
    requires Covers(records + [r], i, at)
    ensures CellHolds(records + [r], Placed(memory, start, r.data), i, at)
  {
    hide Covers, Upper, StartOf, Placed, CellHolds;
    CoveredIndex(records + [r], i, at);
    if i < |records| {
      CoversPrefix(records, [r], i, at);
      OldCellHolds(records, r, memory, start, i, at);
    } else {
      NewCovered(records, r, at);
      NewCellHolds(records, r, memory, start, at);
    }
  }

  lemma OldCellHolds(records: seq<Record>, r: Record, memory: Memory, start: nat, i: nat, at: nat)
    requires i < |records| && CellHolds(records, memory, i, at)
    requires StartOf(records + [r], i) == StartOf(records, i)
    requires forall a :: start <= a < start + |r.data| ==> a !in memory
    ensures CellHolds(records + [r], Placed(memory, start, r.data), i, at)
  {
    hide StartOf, Placed;
  }

  lemma NewCellHolds(records: seq<Record>, r: Record, memory: Memory, start: nat, at: nat)
    requires StartOf(records + [r], |records|) == start && start <= at < start + |r.data|
    ensures CellHolds(records + [r], Placed(memory, start, r.data), |records|, at)
  {
    hide StartOf, Placed;
  }

  // ---------------------------------------------------------------- the record loop

  lemma NothingPlaced(memory: Memory, start: nat)
    ensures Placed(memory, start, []) == memory
  {
  }

  lemma PlacedStep(memory: Memory, start: nat, data: seq<byte>, offset: nat)
    requires offset < |data|
    ensures Placed(memory, start, data[..offset + 1])
        == Placed(memory, start, data[..offset])[start + offset := data[offset]]
  {
    assert data[..offset + 1][..offset] == data[..offset];
  }

  lemma FitsNothing(board: Board, memory: Memory, start: nat)
    ensures Fits(board, memory, start, [])
  {
  }

  lemma FitsStep(board: Board, memory: Memory, start: nat, data: seq<byte>, offset: nat)
    requires offset < |data| && Fits(board, memory, start, data[..offset])
    ensures Fits(board, memory, start, data[..offset + 1])
        <==> InWindow(board, start + offset) && start + offset !in memory
    ensures Fits(board, memory, start, data) ==> Fits(board, memory, start, data[..offset + 1])
  {
    hide InWindow;
  }

  /** The inner loop: each byte is checked, then stored. */
  method PlaceData(board: Board, memory: Memory, start: nat, data: seq<byte>) returns (ok: bool, placed: Memory)
    ensures ok <==> Fits(board, memory, start, data)
    ensures ok ==> placed == Placed(memory, start, data) && |placed| == |memory| + |data|
  {
    hide InWindow, Placed, Fits;
    assert data[..0] == [] && Placed(memory, start, []) == memory by { NothingPlaced(memory, start); }
    FitsNothing(board, memory, start);
    placed := memory;
    var offset := 0;
    while offset < |data|
      invariant offset <= |data| && placed == Placed(memory, start, data[..offset]) && |placed| == |memory| + offset
      invariant Fits(board, memory, start, data[..offset])
    {
      var at := start + offset;
      FitsStep(board, memory, start, data, offset);
      if !InWindow(board, at) { return false, placed; }
      if at in placed { return false, placed; }
      PlacedStep(memory, start, data, offset);
      placed := placed[at := data[offset]];
      offset := offset + 1;
    }
    assert data[..offset] == data;
    return true, placed;
  }

  lemma LineStep(lines: seq<string>, n: nat, records: seq<Record>)
    requires n < |lines| && RecordsOf(lines[..n]) == Some(records)
    ensures var line := Strip(lines[n]);
      RecordsOf(lines[..n + 1]) == if line == "" then Some(records)
                                   else if IsRecordLine(line) then Some(records + [RecordIn(line)]) else None
  {
    hide Strip, IsRecordLine, RecordIn;
    assert lines[..n + 1][..n] == lines[..n];
  }

  method LoadRecords(board: Board, lines: seq<string>) returns (r: Result<Memory>)
    ensures r.Ok? <==> Loads(board, lines)
    ensures r.Ok? ==> MemoryIs(RecordsOf(lines).value, r.value) && |r.value| == DataBytes(RecordsOf(lines).value)
  {
    hide KindOk, Sound, MemoryIs, Strip, IsRecordLine, RecordIn, Fits, Placed, Upper, BigEndian, RecordsOf, DataBytes;
    var memory: Memory, upper, eof := map[], 0, false;
    ghost var records: seq<Record> := [];
    NothingLoaded(board);
    NoRecords();
    assert lines[..0] == [];
    var n := 0;
    while n < |lines|
      invariant 0 <= n <= |lines| && RecordsOf(lines[..n]) == Some(records)
      invariant Sound(board, records) && MemoryIs(records, memory) && |memory| == DataBytes(records)
      invariant upper == Upper(records, |records|)
      invariant eof <==> records != [] && records[|records| - 1].kind == 1
    {
      var line := Strip(lines[n]);
      LineStep(lines, n, records);
      n := n + 1;
      if line == "" { continue; }
      if !IsRecordLine(line) {
        NoRecordsRefuse(board, lines, n);
        return Err("not a record");
      }
      ghost var before := records;
      var record := RecordIn(line);
      records := records + [record];
      assert records[..|records| - 1] == before;
      UpperStep(before, record);
      DataBytesStep(before, record);
      if record.kind == 0 { AddData(board, before, record, memory); } else { AddOther(board, before, record, memory); }
      if eof || !KindOk(record) {
        UnsoundRefuses(board, lines, n);
        return Err("refused");
      }
      if record.kind == 0 {
        var ok, placed := PlaceData(board, memory, upper + record.address, record.data);
        if !ok {
          UnsoundRefuses(board, lines, n);
          return Err("refused");
        }
        memory := placed;
      } else if record.kind == 1 {
        eof := true;
      } else if record.kind == 4 {
        upper := 0x10000 * BigEndian(record.data);
      }
    }
    assert lines[..n] == lines;
    if !eof || memory == map[] { return Err("Missing EOF or empty image"); }
    assert |memory| > 0;
    return Ok(memory);
  }

  lemma UpperStep(records: seq<Record>, r: Record)
    ensures Upper(records + [r], |records| + 1)
         == if r.kind == 4 then 0x10000 * BigEndian(r.data) else Upper(records, |records|)
  {
    UpperPrefix(records, [r], |records|);
  }

  lemma NothingLoaded(board: Board)
    ensures Sound(board, []) && MemoryIs([], map[]) && Upper([], 0) == 0 && DataBytes([]) == 0
  {
  }

  lemma NoRecordsRefuse(board: Board, lines: seq<string>, n: nat)
    requires n <= |lines| && RecordsOf(lines[..n]).None?
    ensures !Loads(board, lines)
  {
    if RecordsOf(lines).Some? { RecordsPrefix(lines, n); }
  }

  lemma UnsoundRefuses(board: Board, lines: seq<string>, n: nat)
    requires n <= |lines| && RecordsOf(lines[..n]).Some? && !Sound(board, RecordsOf(lines[..n]).value)
    ensures !Loads(board, lines)
  {
    hide Sound, DataBytes, Strip, IsRecordLine;
    if RecordsOf(lines).Some? {
      RecordsPrefix(lines, n);
      var all, some := RecordsOf(lines).value, RecordsOf(lines[..n]).value;
      assert all == some + all[|some|..];
      if Sound(board, all) { SoundPrefix(board, some, all[|some|..]); }
    }
  }

  // ---------------------------------------------------------------- the image

  predicate Mapped(memory: Memory, at: nat) {
    at in memory && at + 1 in memory && at + 2 in memory && at + 3 in memory
  }

  function WordAt(memory: Memory, at: nat): nat
    requires Mapped(memory, at)
  {
    memory[at] as int + 0x100 * (memory[at + 1] as int) + 0x1_0000 * (memory[at + 2] as int)
      + 0x100_0000 * (memory[at + 3] as int)
  }

  /** The initial stack pointer, and a Thumb reset vector into the image. */
  predicate VectorOk(memory: Memory) {
    && Mapped(memory, 0x0800_0000) && Mapped(memory, 0x0800_0004)
    && WordAt(memory, 0x0800_0000) == 0x2001_0000
    && WordAt(memory, 0x0800_0004) % 2 == 1 && WordAt(memory, 0x0800_0004) - 1 in memory
  }

  function Name(board: Board): (name: string)
    ensures name != ""
  {
    match board
    case MatekF722Px => "matek_f722_px"
    case TmotorF7V2 => "tmotor_f7_v2"
    case KakuteF7Hdv => "kakute_f7_hdv"
  }

  function Version(board: Board): (version: string)
    ensures version != ""
  {
    match board
    case MatekF722Px => MatekVersion()
    case TmotorF7V2 => TmotorVersion()
    case KakuteF7Hdv => KakuteVersion()
  }

  function MatekVersion(): (version: string)
    ensures version != ""
  {
    "0.2.0-prototype-matekf722px-bench1-crsf1-bl1-"
    + "store13-cal2-mount1-actual1-dshot1-flashprobe1-bb4-baro1"
  }

  function TmotorVersion(): (version: string)
    ensures version != ""
  {
    "0.2.0-prototype-tmotorf7v2-sensor2-bl1-calstore2-flightdev1"
  }

  function KakuteVersion(): (version: string)
    ensures version != ""
  {
    "0.2.0-prototype-flightdev1-bl1-calstore2-piddiag2"
  }

  /** `str.encode` for the ASCII markers. */
  function AsciiByte(c: char): (b: byte)
    ensures b < 128
  {
    if c as int < 128 then c as int else 63
  }

  predicate ByteIs(memory: Memory, at: nat, c: char) { at in memory && memory[at] == AsciiByte(c) }

  predicate MarkerAt(memory: Memory, marker: string, at: nat) {
    forall j :: 0 <= j < |marker| ==> ByteIs(memory, at + j, marker[j])
  }

  ghost predicate HasMarker(memory: Memory, marker: string) {
    exists at: nat :: MarkerAt(memory, marker, at)
  }

  /** What an accepted image is. */
  ghost predicate ImageOk(board: Board, memory: Memory) {
    VectorOk(memory) && HasMarker(memory, Name(board)) && HasMarker(memory, Version(board))
  }

  ghost predicate Accepts(board: Board, lines: seq<string>) {
    Loads(board, lines) && exists memory :: MemoryIs(RecordsOf(lines).value, memory) && ImageOk(board, memory)
  }

  lemma MemoryIsUnique(records: seq<Record>, memory: Memory, memory': Memory)
    requires MemoryIs(records, memory) && MemoryIs(records, memory')
    ensures memory == memory'
  {
    hide Covers, StartOf;
    forall at | at in memory ensures at in memory' && memory[at] == memory'[at] {
      var i: nat :| Covers(records, i, at);
    }
    forall at | at in memory' ensures at in memory {
      var i: nat :| Covers(records, i, at);
    }
  }

  /** The bytes from the lowest to the highest address, gaps filled with 255. */
  function ImageOf(memory: Memory, lo: nat, hi: nat): (image: seq<byte>)
    requires lo <= hi
    ensures |image| == hi + 1 - lo
    ensures forall i :: 0 <= i < |image| ==> image[i] == if lo + i in memory then memory[lo + i] else 255
  {
    seq(hi + 1 - lo, i requires 0 <= i => if lo + i in memory then memory[lo + i] else 255)
  }

  predicate FoundAt(image: seq<byte>, marker: string, i: nat) {
    i + |marker| <= |image| && forall j :: 0 <= j < |marker| ==> image[i + j] == AsciiByte(marker[j])
  }

  /** Filling the gaps makes no marker: it is in the filled image exactly when its bytes were loaded. */
  lemma FillingMakesNoMarker(memory: Memory, lo: nat, hi: nat, marker: string)
    requires lo in memory && hi in memory && (forall at :: at in memory ==> lo <= at <= hi) && marker != ""
    ensures (exists i: nat :: FoundAt(ImageOf(memory, lo, hi), marker, i)) <==> HasMarker(memory, marker)
  {
    hide AsciiByte;
    var image := ImageOf(memory, lo, hi);
    if i: nat :| FoundAt(image, marker, i) {
      forall j | 0 <= j < |marker| ensures ByteIs(memory, lo + i + j, marker[j]) {
        assert image[i + j] == AsciiByte(marker[j]);
      }
      assert MarkerAt(memory, marker, lo + i);
    }
    if at: nat :| MarkerAt(memory, marker, at) {
      assert ByteIs(memory, at + 0, marker[0]) && ByteIs(memory, at + (|marker| - 1), marker[|marker| - 1]);
      forall j | 0 <= j < |marker| ensures image[at - lo + j] == AsciiByte(marker[j]) {
        assert ByteIs(memory, at + j, marker[j]);
      }
      assert FoundAt(image, marker, at - lo);
    }
  }

  lemma {:induction false} LowestOf(addresses: set<nat>) returns (lo: nat)
    requires addresses != {}
    ensures lo in addresses && forall at :: at in addresses ==> lo <= at
  {
    var first :| first in addresses;
    lo := first;
    var others := addresses - {first};
    if others != {} {
      var rest := LowestOf(others);
      if rest < lo { lo := rest; }
    }
    assert forall at :: at in addresses ==> at == first || at in others;
  }

  lemma {:induction false} HighestOf(addresses: set<nat>) returns (hi: nat)
    requires addresses != {}
    ensures hi in addresses && forall at :: at in addresses ==> at <= hi
  {
    var first :| first in addresses;
    hi := first;
    var others := addresses - {first};
    if others != {} {
      var rest := HighestOf(others);
      if hi < rest { hi := rest; }
    }
    assert forall at :: at in addresses ==> at == first || at in others;
  }

  /** `marker in image` */
  method Search(image: seq<byte>, marker: string) returns (found: bool)
    ensures found <==> exists i: nat :: FoundAt(image, marker, i)
  {
    var i := 0;
    while i + |marker| <= |image|
      invariant forall k: nat :: k < i ==> !FoundAt(image, marker, k)
    {
      if FoundAt(image, marker, i) { return true; }
      i := i + 1;
    }
    return false;
  }

  ghost function Records(lines: seq<string>): seq<Record> {
    if RecordsOf(lines).Some? then RecordsOf(lines).value else []
  }

  /** How many bytes the file programs, and the address after the last one. */
  ghost predicate Programs(records: seq<Record>, size: nat, end: nat) {
    && size == DataBytes(records)
    && (forall i: nat, at: nat :: Covers(records, i, at) ==> at < end)
    && exists i: nat, at: nat :: at + 1 == end && Covers(records, i, at)
  }

  /** `validate` for a supported board: how many bytes are programmed, and the end of the image. */
  method Validate(board: Board, lines: seq<string>) returns (r: Result<(nat, nat)>)
    ensures r.Ok? <==> Accepts(board, lines)
    ensures r.Ok? ==> Programs(Records(lines), r.value.0, r.value.1)
  {
    hide Name, Version, VectorOk, MarkerAt, FoundAt, ImageOf, Covers, Sound, DataBytes, MemoryIs;
    var loaded := LoadRecords(board, lines);
    if loaded.Err? { return Err(loaded.message); }
    var memory := loaded.value;
    ghost var records := Records(lines);
    forall other | MemoryIs(records, other) ensures other == memory { MemoryIsUnique(records, memory, other); }
    var ok, end := CheckImage(board, memory);
    if !ok { return Err("vector or marker"); }
    EndOfMemory(records, memory, end);
    return Ok((|memory|, end));
  }

  lemma EndOfMemory(records: seq<Record>, memory: Memory, end: nat)
    requires MemoryIs(records, memory) && end > 0 && end - 1 in memory && (forall at :: at in memory ==> at < end)
    ensures Programs(records, DataBytes(records), end)
  {
    hide Covers, StartOf;
    var i: nat :| Covers(records, i, end - 1);
    assert (end - 1) + 1 == end && Covers(records, i, end - 1);
  }

  method CheckImage(board: Board, memory: Memory) returns (ok: bool, end: nat)
    ensures ok <==> ImageOk(board, memory)
    ensures ok ==> end > 0 && end - 1 in memory && forall at :: at in memory ==> at < end
  {
    hide Name, Version, VectorOk, MarkerAt, FoundAt, ImageOf;
    if !VectorOk(memory) { return false, 0; }
    VectorMapped(memory);
    ghost var low := LowestOf(memory.Keys);
    ghost var high := HighestOf(memory.Keys);
    var lo: nat :| lo in memory.Keys && forall at :: at in memory.Keys ==> lo <= at;
    var hi: nat :| hi in memory.Keys && forall at :: at in memory.Keys ==> at <= hi;
    var image := ImageOf(memory, lo, hi);
    FillingMakesNoMarker(memory, lo, hi, Name(board));
    FillingMakesNoMarker(memory, lo, hi, Version(board));
    var named := Search(image, Name(board));
    var versioned := Search(image, Version(board));
    return named && versioned, hi + 1;
  }

  lemma VectorMapped(memory: Memory)
    requires VectorOk(memory)
    ensures 0x0800_0000 in memory
  {
  }

  // ---------------------------------------------------------------- damage

  lemma {:induction false} SumChange(bytes: seq<byte>, i: nat, b: byte)
    requires i < |bytes|
    ensures Sum(bytes[i := b]) == Sum(bytes) - bytes[i] + b
  {
    var n := |bytes| - 1;
    if i < n {
      SumChange(bytes[..n], i, b);
      assert bytes[i := b][..n] == bytes[..n][i := b];
    } else {
      assert bytes[i := b][..n] == bytes[..n];
    }
  }

  /** No record survives a change of one byte. */
  lemma OneByteBreaksRecord(bytes: seq<byte>, i: nat, b: byte)
    requires IsRecord(bytes) && i < |bytes| && b != bytes[i]
    ensures !IsRecord(bytes[i := b])
  {
    SumChange(bytes, i, b);
  }

  lemma PairFirst(s: string)
    requires |s| >= 2 && HexDigitOf(s[0]).Some?
    ensures !IsAsciiSpace(s[0])
    ensures FromHex(s).Some? <==> HexDigitOf(s[1]).Some? && FromHex(s[2..]).Some?
    ensures FromHex(s).Some? ==>
              FromHex(s).value == [16 * HexDigitOf(s[0]).value + HexDigitOf(s[1]).value] + FromHex(s[2..]).value
  {
  }

  lemma SpaceFirst(s: string)
    requires s != "" && IsAsciiSpace(s[0])
    ensures FromHex(s) == FromHex(s[1..])
  {
  }

  lemma DigitFirst(s: string)
    requires s != "" && !IsAsciiSpace(s[0]) && FromHex(s).Some?
    ensures |s| >= 2 && HexDigitOf(s[0]).Some? && HexDigitOf(s[1]).Some?
  {
  }

  /** Changing the value of one hex digit changes one byte. */
  lemma {:induction false} DigitChangesByte(s: string, j: nat, c: char) returns (i: nat, b: byte)
    requires FromHex(s).Some? && j < |s| && HexDigitOf(s[j]).Some? && HexDigitOf(c).Some?
        && HexDigitOf(s[j]) != HexDigitOf(c)
    ensures i < |FromHex(s).value| && b != FromHex(s).value[i] && FromHex(s[j := c]) == Some(FromHex(s).value[i := b])
    decreases |s|
  {
    hide FromHex, HexDigitOf, IsAsciiSpace;
    var t := s[j := c];
    if IsAsciiSpace(s[0]) {
      SpaceIsNoDigit(s[0]);
      SpaceFirst(s);
      i, b := DigitChangesByte(s[1..], j - 1, c);
      assert t[1..] == s[1..][j - 1 := c];
      SpaceFirst(t);
    } else {
      DigitFirst(s);
      PairFirst(s);
      PairFirst(t);
      var was, changed := FromHex(s).value, 16 * HexDigitOf(t[0]).value + HexDigitOf(t[1]).value;
      if j < 2 {
        assert t[2..] == s[2..];
        i, b := 0, changed;
        assert FromHex(t).value == was[0 := b];
      } else {
        var i', b' := DigitChangesByte(s[2..], j - 2, c);
        i, b := i' + 1, b';
        assert t[2..] == s[2..][j - 2 := c];
        assert FromHex(t).value == was[i := b];
      }
    }
  }

  lemma SpaceIsNoDigit(c: char)
    requires IsAsciiSpace(c)
    ensures HexDigitOf(c).None?
  {
  }

  /** Changing the value of any one hex digit in any record line of a file that loads makes a file that
    * does not load. */
  lemma OneDigitRefused(board: Board, lines: seq<string>, n: nat, j: nat, c: char, line': string)
    requires Loads(board, lines) && n < |lines|
    requires var line := Strip(lines[n]);
      && 0 < j < |line| && HexDigitOf(line[j]).Some? && HexDigitOf(c).Some? && HexDigitOf(line[j]) != HexDigitOf(c)
      && Strip(line') == line[j := c]
    ensures !Loads(board, lines[n := line'])
  {
    hide Strip, FromHex, HexDigitOf, IsRecord, Sound, DataBytes;
    var line := Strip(lines[n]);
    EveryLineIsRecord(lines, n);
    var i, b := DigitChangesByte(line[1..], j - 1, c);
    OneByteBreaksRecord(FromHex(line[1..]).value, i, b);
    assert line[j := c][1..] == line[1..][j - 1 := c];
    assert !IsRecordLine(Strip(line'));
    if RecordsOf(lines[n := line']).Some? { EveryLineIsRecord(lines[n := line'], n); }
  }

  lemma {:induction false} EveryLineIsRecord(lines: seq<string>, n: nat)
    requires RecordsOf(lines).Some? && n < |lines|
    ensures Strip(lines[n]) == "" || IsRecordLine(Strip(lines[n]))
  {
    hide Strip, IsRecordLine;
    if n < |lines| - 1 { EveryLineIsRecord(lines[..|lines| - 1], n); }
  }

  // ---------------------------------------------------------------- the encoder

  /** The record with these bytes and its checksum, in upper-case hex. */
  function RecordText(bytes: seq<byte>): string { ":" + HexText(bytes + [Checksum(bytes)]) }

  function Checksum(bytes: seq<byte>): byte { (256 - Sum(bytes) % 256) % 256 }

  function Flat(chunks: seq<seq<byte>>): seq<byte> {
    if chunks == [] then [] else Flat(chunks[..|chunks| - 1]) + chunks[|chunks| - 1]
  }

  function DataText(at: nat, data: seq<byte>): string
    requires |data| < 256 && at < 0x1_0000
  {
    RecordText([|data|, at / 256, at % 256, 0] + data)
  }

  predicate GoodChunks(at: nat, chunks: seq<seq<byte>>) {
    at + |Flat(chunks)| <= 0x1_0000 && forall i :: 0 <= i < |chunks| ==> 0 < |chunks[i]| < 256
  }

  /** The extended address record, the data records, one per chunk. */
  function LinesUpTo(page: nat, at: nat, chunks: seq<seq<byte>>): seq<string>
    requires page < 0x1_0000 && GoodChunks(at, chunks)
  {
    if chunks == [] then [RecordText([2, 0, 0, 4, page / 256, page % 256])]
    else
      var front := chunks[..|chunks| - 1];
      LinesUpTo(page, at, front) + [DataText(at + |Flat(front)|, chunks[|chunks| - 1])]
  }

  function EncodedImage(page: nat, at: nat, chunks: seq<seq<byte>>): seq<string>
    requires page < 0x1_0000 && GoodChunks(at, chunks)
  {
    LinesUpTo(page, at, chunks) + [RecordText([0, 0, 0, 1])]
  }

  lemma {:induction false} SumAppend(bytes: seq<byte>, b: byte)
    ensures Sum(bytes + [b]) == Sum(bytes) + b
  {
    assert (bytes + [b])[..|bytes|] == bytes;
  }

  lemma ChecksumMakesRecord(bytes: seq<byte>)
    requires |bytes| >= 4 && |bytes| == bytes[0] as int + 4
    ensures IsRecord(bytes + [Checksum(bytes)])
  {
    SumAppend(bytes, Checksum(bytes));
  }

  lemma DigitsAgree(n: nat)
    requires n < 16
    ensures HexDigitOf(HexDigit(n)) == Some(n) && !IsAsciiSpace(HexDigit(n)) && !IsSpaceChar(HexDigit(n))
  {
  }

  /** `bytes.fromhex` inverts the encoder's hex text. */
  lemma {:induction false} FromHexInverts(bytes: seq<byte>)
    ensures FromHex(HexText(bytes)) == Some(bytes)
  {
    if bytes != [] {
      HexTextFront(bytes);
      hide FromHex, HexText;
      FromHexInverts(bytes[1..]);
      FromHexPair(bytes[0], HexText(bytes[1..]), bytes[1..]);
      assert [bytes[0]] + bytes[1..] == bytes;
    }
  }

  lemma FromHexPair(b: byte, rest: string, decoded: seq<byte>)
    requires FromHex(rest) == Some(decoded)
    ensures FromHex(HexByte(b) + rest) == Some([b] + decoded)
  {
    hide HexDigitOf, IsAsciiSpace, HexDigit, IsSpaceChar;
    DigitsAgree(b / 16);
    DigitsAgree(b % 16);
    var text := HexByte(b) + rest;
    assert text[0] == HexDigit(b / 16) && text[1] == HexDigit(b % 16) && text[2..] == rest;
    PairFirst(text);
    hide FromHex;
  }

  /** Hex text, read from the front. */
  lemma {:induction false} HexTextFront(bytes: seq<byte>)
    requires bytes != []
    ensures HexText(bytes) == HexByte(bytes[0]) + HexText(bytes[1..])
  {
    hide HexByte;
    var n := |bytes| - 1;
    var first, last := HexByte(bytes[0]), HexByte(bytes[n]);
    if n == 0 {
      assert bytes[..0] == [] && bytes[1..] == [];
    } else {
      HexTextFront(bytes[..n]);
      assert bytes[..n][1..] == bytes[1..][..n - 1];
      var middle := HexText(bytes[1..][..n - 1]);
      assert HexText(bytes[1..]) == middle + last && HexText(bytes[..n]) == first + middle;
      assert HexText(bytes) == (first + middle) + last;
      hide HexText;
      assert (first + middle) + last == first + (middle + last);
    }
  }

  lemma RecordTextStrips(bytes: seq<byte>)
    ensures Strip(RecordText(bytes)) == RecordText(bytes)
  {
    hide IsSpaceChar;
    var all := bytes + [Checksum(bytes)];
    var text := RecordText(bytes);
    assert all[..|bytes|] == bytes;
    DigitsAgree(Checksum(bytes) % 16);
    assert text[|text| - 1] == HexDigit(Checksum(bytes) % 16);
    assert text[0] == ':' && !IsSpaceChar(':') by { ColonIsNoSpace(); }
  }

  lemma ColonIsNoSpace()
    ensures !IsSpaceChar(':')
  {
  }

  /** An encoded record is read back as it was. */
  lemma RecordReadBack(bytes: seq<byte>)
    requires |bytes| >= 4 && |bytes| == bytes[0] as int + 4
    ensures var line := RecordText(bytes);
      Strip(line) == line && IsRecordLine(line)
      && RecordIn(line) == Record(256 * (bytes[1] as int) + bytes[2] as int, bytes[3], bytes[4..])
  {
    hide Strip, FromHex, HexText, Sum, Checksum;
    RecordTextStrips(bytes);
    var all := bytes + [Checksum(bytes)];
    FromHexInverts(all);
    ChecksumMakesRecord(bytes);
    assert RecordText(bytes)[1..] == HexText(all);
    assert all[4..|all| - 1] == bytes[4..];
  }

  lemma RecordsStep(lines: seq<string>, bytes: seq<byte>)
    requires RecordsOf(lines).Some? && |bytes| >= 4 && |bytes| == bytes[0] as int + 4
    ensures RecordsOf(lines + [RecordText(bytes)])
         == Some(RecordsOf(lines).value + [Record(256 * (bytes[1] as int) + bytes[2] as int, bytes[3], bytes[4..])])
  {
    hide Strip, IsRecordLine, RecordIn;
    RecordReadBack(bytes);
    assert (lines + [RecordText(bytes)])[..|lines|] == lines;
    assert RecordText(bytes) != "" by { NotBlank(bytes); }
  }

  lemma NotBlank(bytes: seq<byte>)
    ensures RecordText(bytes) != ""
  {
  }

  /** Records that load so far, with this upper address half, memory and size. */
  ghost predicate LoadsUpTo(board: Board, upper: nat, memory: Memory, size: nat, records: seq<Record>) {
    && Sound(board, records) && records != [] && records[|records| - 1].kind != 1
    && Upper(records, |records|) == upper && MemoryIs(records, memory) && DataBytes(records) == size
  }

  /** Every address of the image is in the board's window. */
  predicate ImageFits(board: Board, page: nat, at: nat, size: nat) {
    forall a :: 0x1_0000 * page + at <= a < 0x1_0000 * page + at + size ==> InWindow(board, a)
  }

  lemma {:induction false} PrefixLoads(board: Board, page: nat, at: nat, chunks: seq<seq<byte>>)
    requires page < 0x1_0000 && GoodChunks(at, chunks) && ImageFits(board, page, at, |Flat(chunks)|)
    ensures RecordsOf(LinesUpTo(page, at, chunks)).Some?
    ensures LoadsUpTo(board, 0x1_0000 * page, Placed(map[], 0x1_0000 * page + at, Flat(chunks)), |Flat(chunks)|,
                      RecordsOf(LinesUpTo(page, at, chunks)).value)
    decreases |chunks|
  {
    hide LoadsUpTo, RecordText, InWindow, RecordsOf, Flat, Fits, Placed;
    if chunks == [] {
      FirstLineLoads(board, page);
      NothingPlaced(map[], 0x1_0000 * page + at);
      assert Flat([]) == [] by { FlatNothing(); }
    } else {
      var front, data := chunks[..|chunks| - 1], chunks[|chunks| - 1];
      assert front + [data] == chunks;
      FlatStep(front, data);
      PrefixLoads(board, page, at, front);
      DataLineRead(LinesUpTo(page, at, front), at + |Flat(front)|, data);
      NewFits(board, 0x1_0000 * page + at, Flat(front), data);
      DataLineLoads(board, 0x1_0000 * page, Placed(map[], 0x1_0000 * page + at, Flat(front)), |Flat(front)|,
                    RecordsOf(LinesUpTo(page, at, front)).value, Record(at + |Flat(front)|, 0, data));
      PlacedAppend(map[], 0x1_0000 * page + at, Flat(front), data);
    }
  }

  lemma FlatStep(front: seq<seq<byte>>, data: seq<byte>)
    ensures Flat(front + [data]) == Flat(front) + data
  {
    assert (front + [data])[..|front|] == front;
  }

  lemma {:induction false} DataBytesStep(records: seq<Record>, r: Record)
    ensures DataBytes(records + [r]) == DataBytes(records) + if r.kind == 0 then |r.data| else 0
  {
    assert (records + [r])[..|records|] == records;
  }

  lemma PlacedAppend(memory: Memory, start: nat, a: seq<byte>, b: seq<byte>)
    ensures Placed(Placed(memory, start, a), start + |a|, b) == Placed(memory, start, a + b)
  {
    hide Placed;
  }

  lemma DataLineRead(lines: seq<string>, a: nat, data: seq<byte>)
    requires RecordsOf(lines).Some? && |data| < 256 && a < 0x1_0000
    ensures RecordsOf(lines + [DataText(a, data)]) == Some(RecordsOf(lines).value + [Record(a, 0, data)])
  {
    hide RecordsOf, RecordText;
    var bytes: seq<byte> := [|data|, a / 256, a % 256, 0] + data;
    RecordsStep(lines, bytes);
    assert bytes[4..] == data && 256 * (a / 256) + a % 256 == a;
  }

  lemma FirstLineLoads(board: Board, page: nat)
    requires page < 0x1_0000
    ensures RecordsOf([RecordText([2, 0, 0, 4, page / 256, page % 256])]).Some?
    ensures LoadsUpTo(board, 0x1_0000 * page, map[], 0,
                      RecordsOf([RecordText([2, 0, 0, 4, page / 256, page % 256])]).value)
  {
    hide RecordText, RecordsOf, LoadsUpTo;
    var r := Record(0, 4, [page / 256, page % 256]);
    FirstLineRead(page);
    FirstRecordLoads(board, page, r);
  }

  lemma FirstLineRead(page: nat)
    requires page < 0x1_0000
    ensures RecordsOf([RecordText([2, 0, 0, 4, page / 256, page % 256])])
         == Some([Record(0, 4, [page / 256, page % 256])])
  {
    hide RecordText, RecordsOf;
    var bytes: seq<byte> := [2, 0, 0, 4, page / 256, page % 256];
    assert bytes[4..] == [page / 256, page % 256];
    OneRecord(bytes);
  }

  lemma OneRecord(bytes: seq<byte>)
    requires |bytes| >= 4 && |bytes| == bytes[0] as int + 4
    ensures RecordsOf([RecordText(bytes)])
         == Some([Record(256 * (bytes[1] as int) + bytes[2] as int, bytes[3], bytes[4..])])
  {
    NoRecords();
    hide RecordText, RecordsOf;
    RecordsStep([], bytes);
    var r := Record(256 * (bytes[1] as int) + bytes[2] as int, bytes[3], bytes[4..]);
    assert [] + [RecordText(bytes)] == [RecordText(bytes)] && [] + [r] == [r];
  }

  lemma NoRecords()
    ensures RecordsOf([]) == Some([])
  {
  }

  lemma FirstRecordLoads(board: Board, page: nat, r: Record)
    requires page < 0x1_0000 && r == Record(0, 4, [page / 256, page % 256])
    ensures LoadsUpTo(board, 0x1_0000 * page, map[], 0, [r])
  {
    assert DataBytes([]) == 0 && KindOk(r);
    hide Sound, MemoryIs, Upper, BigEndian, DataBytes, KindOk;
    NothingLoaded(board);
    AddOther(board, [], r, map[]);
    UpperStep([], r);
    PageNumber(page);
    DataBytesStep([], r);
    assert [] + [r] == [r];
  }

  lemma PageNumber(page: nat)
    requires page < 0x1_0000
    ensures BigEndian([page / 256, page % 256]) == page
  {
    var d: seq<byte> := [page / 256, page % 256];
    assert d[..1] == [page / 256] && d[..1][..0] == [];
    assert BigEndian(d[..1]) == page / 256;
  }

  lemma NewFits(board: Board, start: nat, loaded: seq<byte>, data: seq<byte>)
    requires forall a :: start <= a < start + (|loaded| + |data|) ==> InWindow(board, a)
    ensures Fits(board, Placed(map[], start, loaded), start + |loaded|, data)
  {
    hide InWindow, Placed;
  }

  lemma DataLineLoads(board: Board, upper: nat, memory: Memory, size: nat, records: seq<Record>, r: Record)
    requires LoadsUpTo(board, upper, memory, size, records) && r.kind == 0 && KindOk(r)
    requires Fits(board, memory, upper + r.address, r.data)
    ensures LoadsUpTo(board, upper, Placed(memory, upper + r.address, r.data), size + |r.data|, records + [r])
  {
    hide Sound, MemoryIs, Upper, KindOk, DataBytes, Placed, Fits;
    AddData(board, records, r, memory);
    UpperStep(records, r);
    DataBytesStep(records, r);
  }

  lemma FlatNothing()
    ensures Flat([]) == []
  {
  }

  /** The record loop inverts the encoder: a one-page image inside the window, cut into records in any
    * way, loads, and its memory is exactly the image. */
  lemma EncodedImageLoads(board: Board, page: nat, at: nat, chunks: seq<seq<byte>>)
    requires page < 0x1_0000 && GoodChunks(at, chunks) && chunks != [] && ImageFits(board, page, at, |Flat(chunks)|)
    ensures var lines := EncodedImage(page, at, chunks);
      Loads(board, lines) && DataBytes(Records(lines)) == |Flat(chunks)|
      && MemoryIs(Records(lines), Placed(map[], 0x1_0000 * page + at, Flat(chunks)))
      && forall memory :: MemoryIs(Records(lines), memory) ==>
         memory == Placed(map[], 0x1_0000 * page + at, Flat(chunks))
  {
    SomeData(at, chunks);
    var r := Record(0, 1, []);
    assert KindOk(r);
    hide RecordText, Sound, MemoryIs, Upper, InWindow, Placed, LinesUpTo, RecordsOf, Flat, DataBytes, KindOk;
    PrefixLoads(board, page, at, chunks);
    var lines := LinesUpTo(page, at, chunks);
    var records := RecordsOf(lines).value;
    EndLineRead(lines);
    var memory := Placed(map[], 0x1_0000 * page + at, Flat(chunks));
    AddOther(board, records, r, memory);
    DataBytesStep(records, r);
    forall other | MemoryIs(records + [r], other) ensures other == memory {
      MemoryIsUnique(records + [r], memory, other);
    }
  }

  lemma EndLineRead(lines: seq<string>)
    requires RecordsOf(lines).Some?
    ensures RecordsOf(lines + [RecordText([0, 0, 0, 1])]) == Some(RecordsOf(lines).value + [Record(0, 1, [])])
  {
    hide RecordsOf, RecordText;
    var bytes: seq<byte> := [0, 0, 0, 1];
    RecordsStep(lines, bytes);
    assert bytes[4..] == [];
  }

  lemma SomeData(at: nat, chunks: seq<seq<byte>>)
    requires GoodChunks(at, chunks) && chunks != []
    ensures |Flat(chunks)| > 0
  {
  }
}
