/** tools/download_blackbox.py: the second FAT32 implementation. It looks one log up and reads it in
  * one call; the two readers are proved to agree on every listed log. */
module BlackboxReader {
  import opened Bytes
  import opened Digits
  import opened FatVolume
  import opened FatChains
  import opened FatDirectory
  import opened FatRootReader

  /** `FileNotFoundError` is told apart from the refusals (`FAT32Error`). */
  datatype Outcome = Data(bytes: seq<byte>) | FileNotFound | Refused(message: string)

  // ---------------------------------------------------------------- looking a name up

  /** `_normalize_83_filename`: upper case, and only `BFLddddd.BBL` is accepted. */
  function Normalize(filename: string): Option<string> {
    var upper := Upper(filename);
    if |upper| == 12 && upper[8] == '.' && IsBblShort(upper[..8] + upper[9..])
    then Some(upper[..8] + upper[9..])
    else None
  }

  /** `str.upper`, as far as the accepted names can tell: of the characters outside ASCII only the
    * ligature U+FB02 becomes letters of an accepted name; the others become none and are kept here. */
  function Upper(s: string): string {
    if s == "" then "" else Upper(s[..|s| - 1]) + UpperOf(s[|s| - 1])
  }

  function UpperOf(c: char): string {
    if 'a' <= c <= 'z' then ['A' + (c - 'a')]
    else if c == '\U{FB02}' then "FL"
    else [c]
  }

  /** The slot names `target`: it is live, and its eleven name bytes are those. */
  predicate IsNamed(slot: DirSlot, target: string) {
    slot[0] != 0xe5 && slot[11] != 0x0f && !Bit(slot[11], 0x08) && Short(slot) == target
  }

  /** The slots naming `target`, in directory order. */
  function Named(slots: seq<DirSlot>, target: string): seq<DirSlot> {
    if slots == [] then []
    else
      var last := slots[|slots| - 1];
      Named(slots[..|slots| - 1], target) + if IsNamed(last, target) then [last] else []
  }

  /** At most one slot names the target, and it is not a directory. */
  predicate TargetOk(slots: seq<DirSlot>, target: string) {
    var hits := Named(slots, target);
    |hits| == 0 || (|hits| == 1 && !IsSubdirectory(hits[0]))
  }

  function TargetEntry(slots: seq<DirSlot>, target: string): Option<(nat, nat)>
    requires TargetOk(slots, target)
  {
    var hits := Named(slots, target);
    if |hits| == 0 then None else Some((EntryOf(hits[0]).firstCluster, EntryOf(hits[0]).size))
  }

  lemma NamedAppend(slots: seq<DirSlot>, x: DirSlot, target: string)
    ensures Named(slots + [x], target) == Named(slots, target) + if IsNamed(x, target) then [x] else []
    ensures !IsNamed(x, target) ==> Named(slots + [x], target) == Named(slots, target)
  {
    assert (slots + [x])[..|slots|] == slots;
  }

  lemma {:induction false} NamedPrefix(seen: seq<DirSlot>, all: seq<DirSlot>, target: string)
    requires seen <= all
    ensures Named(seen, target) <= Named(all, target)
  {
    if seen != all {
      NamedPrefix(seen, all[..|all| - 1], target);
    }
  }

  lemma TargetPrefix(seen: seq<DirSlot>, all: seq<DirSlot>, target: string)
    requires seen <= all
    ensures TargetOk(all, target) ==> TargetOk(seen, target)
  {
    NamedPrefix(seen, all, target);
  }

  /** Some complete scan finds the target at most once, and not as a directory. */
  ghost predicate Lookup(card: Card, g: Geometry, target: string) {
    exists chain, n, slots :: Scan(card, g, chain, n, slots) && TargetOk(slots, target)
  }

  /** What reading a log of that name means: one live file slot names it, it describes a complete file
    * clear of the scanned root, its sectors can be read, and the data is their bytes cut to size. */
  ghost predicate Reads(card: Card, g: Geometry, target: string, data: seq<byte>) {
    exists chain, n, slots, sectors :: ReadsVia(card, g, target, data, chain, n, slots, sectors)
  }

  ghost predicate ReadsVia(card: Card, g: Geometry, target: string, data: seq<byte>,
                           chain: seq<nat>, n: nat, slots: seq<DirSlot>, sectors: seq<int>)
  {
    && Scan(card, g, chain, n, slots) && TargetOk(slots, target)
    && var entry := TargetEntry(slots, target);
       entry.Some? && FileReads(card, g, SetOf(chain), entry.value.0, entry.value.1, sectors, data)
  }

  ghost predicate FileReads(card: Card, g: Geometry, root: set<nat>, first: nat, size: nat, sectors: seq<int>,
                            data: seq<byte>)
  {
    && FileSectors(card, g, root, first, size, sectors)
    && AllReadable(card, sectors)
    && size <= |ReadAll(card, sectors)| && data == ReadAll(card, sectors)[..size]
  }

  // ---------------------------------------------------------------- the reader

  datatype LookupScan = LookupScan(scanned: nat, entry: Option<(nat, nat)>, end: bool)

  /** The sixteen slots of one sector, looked through for the target. */
  method LookInSector(sec: seq<byte>, target: string, entry0: Option<(nat, nat)>, ghost before: seq<DirSlot>)
    returns (r: Result<LookupScan>, ghost kept: nat)
    requires |sec| == SECTOR_BYTES && TargetOk(before, target) && entry0 == TargetEntry(before, target)
    ensures kept <= 16 && forall i :: 0 <= i < kept ==> !IsEnd(SectorSlots(sec)[i])
    ensures r.Ok? <==> TargetOk(before + SectorSlots(sec)[..kept], target)
    ensures r.Ok? ==> r.value.entry == TargetEntry(before + SectorSlots(sec)[..kept], target)
    ensures r.Ok? ==> (r.value.end <==> kept < 16) && (kept < 16 ==> IsEnd(SectorSlots(sec)[kept]))
  {
    hide TargetOk, TargetEntry;
    var entry := entry0;
    ghost var all := SectorSlots(sec);
    kept := 0;
    assert before + all[..0] == before;
    var e := 0;
    while e < 16
      invariant 0 <= e <= 16 && kept == e
      invariant forall i :: 0 <= i < kept ==> !IsEnd(all[i])
      invariant TargetOk(before + all[..kept], target) && entry == TargetEntry(before + all[..kept], target)
    {
      var slot: DirSlot := sec[e * 32..e * 32 + 32];
      assert slot == all[e];
      if slot[0] == 0x00 { return Ok(LookupScan(0, entry, true)), kept; }
      ghost var seen := before + all[..kept];
      assert before + all[..kept + 1] == seen + [slot];
      kept := kept + 1;
      var step := ConsiderEntry(slot, target, entry, seen);
      if step.Err? { return Err(step.message), kept; }
      entry := step.value;
      e := e + 1;
    }
    return Ok(LookupScan(0, entry, false)), kept;
  }

  /** The body of the slot loop for a slot that is not the end marker. */
  method ConsiderEntry(slot: DirSlot, target: string, entry: Option<(nat, nat)>, ghost seen: seq<DirSlot>)
    returns (r: Result<Option<(nat, nat)>>)
    requires TargetOk(seen, target) && entry == TargetEntry(seen, target)
    ensures r.Ok? <==> TargetOk(seen + [slot], target)
    ensures r.Ok? ==> r.value == TargetEntry(seen + [slot], target)
  {
    hide Named;
    NamedAppend(seen, slot, target);
    if slot[0] == 0xe5 { return Ok(entry); }
    if slot[11] == 0x0f { return Ok(entry); }
    if Bit(slot[11], 0x08) { return Ok(entry); }
    if Short(slot) != target { return Ok(entry); }
    if Bit(slot[11], 0x10) { return Err("Requested target is a subdirectory"); }
    if entry.Some? { return Err("Duplicate filename found in root directory"); }
    return Ok(Some((U16(slot, 20) * 0x1_0000 + U16(slot, 26), U32(slot, 28))));
  }

  lemma NamedRefuses(card: Card, g: Geometry, chain: seq<nat>, n: nat, slots: seq<DirSlot>, sec: seq<byte>, j: nat,
                     target: string)
    requires SoundGeometry(g, card.Count())
    requires SeenSlots(card, g, chain, n, slots, sec, j)
    requires !TargetOk(slots + SectorSlots(sec)[..j], target)
    ensures !Lookup(card, g, target)
  {
    hide SoundGeometry, TargetOk, Scan, Scanning;
    var seen := slots + SectorSlots(sec)[..j];
    forall done, m, all | Scan(card, g, done, m, all) ensures !TargetOk(all, target) {
      SeenIsPrefix(card, g, chain, n, slots, sec, j, done, m, all);
      TargetPrefix(seen, all, target);
    }
  }

  lemma LookupScans(card: Card, g: Geometry, target: string)
    ensures Lookup(card, g, target) ==> Scannable(card, g)
  {
  }

  /** The root was scanned and nothing live carries the name. */
  ghost predicate NotFound(card: Card, g: Geometry, target: string) {
    exists chain, n, slots :: Scan(card, g, chain, n, slots) && Named(slots, target) == []
  }

  /** Both answers need a lookup that goes through. */
  lemma AnswersNeedLookup(card: Card, g: Geometry, target: string)
    ensures NotFound(card, g, target) ==> Lookup(card, g, target)
    ensures (exists data :: Reads(card, g, target, data)) ==> Lookup(card, g, target)
  {
    hide Scan;
    if chain, n, slots :| Scan(card, g, chain, n, slots) && Named(slots, target) == [] {
      assert TargetOk(slots, target);
    }
    if data, chain, n, slots, sectors :| ReadsVia(card, g, target, data, chain, n, slots, sectors) {
      assert TargetOk(slots, target);
    }
  }

  ghost predicate FileReadable(card: Card, g: Geometry, root: set<nat>, first: nat, size: nat, data: seq<byte>) {
    exists sectors :: FileReads(card, g, root, first, size, sectors, data)
  }

  /** A card has one complete scan, so that scan decides the lookup. */
  lemma ScanDecides(card: Card, g: Geometry, target: string, chain: seq<nat>, n: nat, slots: seq<DirSlot>)
    requires SoundGeometry(g, card.Count())
    requires Scan(card, g, chain, n, slots) && TargetOk(slots, target)
    ensures NotFound(card, g, target) <==> Named(slots, target) == []
    ensures forall data :: Reads(card, g, target, data) <==>
              var entry := TargetEntry(slots, target);
              entry.Some? && FileReadable(card, g, SetOf(chain), entry.value.0, entry.value.1, data)
  {
    hide Scan, SoundGeometry, FileReads;
    if chain', n', slots' :| Scan(card, g, chain', n', slots') && Named(slots', target) == [] {
      ScanIsUnique(card, g, card.Count(), chain, n, slots, chain', n', slots');
    }
    forall data, chain', n', slots', sectors | ReadsVia(card, g, target, data, chain', n', slots', sectors)
      ensures chain' == chain && slots' == slots
    {
      ScanIsUnique(card, g, card.Count(), chain, n, slots, chain', n', slots');
    }
    var entry := TargetEntry(slots, target);
    if entry.Some? {
      forall data, sectors | FileReads(card, g, SetOf(chain), entry.value.0, entry.value.1, sectors, data)
        ensures ReadsVia(card, g, target, data, chain, n, slots, sectors)
      {
      }
    }
  }

  const FAT_CACHE_CAP: nat := 4096

  class FAT32Reader {
    const card: Card
    var fatCache: map<int, seq<byte>>
    /** The insertion order of the Python dictionary. */
    var cacheOrder: seq<int>
    var partitionLimit: nat
    var partitionOffset: nat
    var secPerClus: nat
    var rsvdSecCnt: nat
    var numFats: nat
    var fatSz32: nat
    var rootClus: nat
    var totSec: nat
    var countOfClusters: nat
    var fat1Start: nat
    var fat2Start: nat
    var firstDataSector: nat
    /** `mount` has succeeded. */
    ghost var mounted: bool

    ghost function Geo(): Geometry
      reads `partitionOffset, `secPerClus, `rsvdSecCnt, `numFats, `fatSz32, `rootClus, `totSec
    {
      Geometry(partitionOffset, secPerClus, rsvdSecCnt, numFats, fatSz32, rootClus, totSec)
    }

    ghost predicate Derived()
      reads `partitionOffset, `secPerClus, `rsvdSecCnt, `numFats, `fatSz32, `rootClus, `totSec
      reads `countOfClusters, `fat1Start, `fat2Start, `firstDataSector
    {
      && countOfClusters == Geo().CountOfClusters()
      && fat1Start == Geo().Fat1Start()
      && fat2Start == Geo().Fat2Start()
      && firstDataSector == Geo().FirstDataSector()
    }

    ghost predicate CacheValid()
      reads `fatCache, `cacheOrder
    {
      CacheHolds(card, fatCache, cacheOrder)
    }

    ghost predicate Valid()
      reads this
    {
      && CacheValid()
      && (Readable(card, 0) && IsFat32Vbr(card.Read(0)) ==> partitionLimit == card.Count())
      && (mounted ==> Derived() && MountedAs(card, Geo()))
    }

    constructor (card: Card)
      ensures Valid() && this.card == card && !mounted
    {
      this.card := card;
      fatCache, cacheOrder := map[], [];
      partitionLimit := card.Count();
      partitionOffset, secPerClus, rsvdSecCnt, numFats := 0, 0, 0, 0;
      fatSz32, rootClus, totSec, countOfClusters := 0, 0, 0, 0;
      fat1Start, fat2Start, firstDataSector := 0, 0, 0;
      mounted := false;
    }

    /** A read through the cache answers exactly what an uncached read answers; a miss stores the sector
      * and, when the cache is full, forgets the oldest one. */
    method ReadSector(lba: int) returns (r: Result<seq<byte>>)
      requires CacheValid()
      modifies `fatCache, `cacheOrder
      ensures CacheValid()
      ensures r.Ok? <==> Readable(card, lba)
      ensures r.Ok? ==> r.value == card.Read(lba) && |r.value| == SECTOR_BYTES
      ensures cacheOrder == if r.Err? || lba in old(fatCache) then old(cacheOrder)
                            else if |old(fatCache)| == 4096 then old(cacheOrder)[1..] + [lba]
                            else old(cacheOrder) + [lba]
    {
      if lba < 0 || lba >= card.Count() { return Err("Sector out of device bounds"); }
      if lba in fatCache { return Ok(fatCache[lba]); }
      var sec := card.Read(lba);
      if |sec| != 512 { return Err("Sector read returned an unexpected length"); }
      if |fatCache| >= FAT_CACHE_CAP {
        var oldest := cacheOrder[0];
        ForgetOldest(card, fatCache, cacheOrder);
        fatCache, cacheOrder := fatCache - {oldest}, cacheOrder[1..];
      }
      Remember(card, fatCache, cacheOrder, lba);
      fatCache, cacheOrder := fatCache[lba := sec], cacheOrder + [lba];
      return Ok(sec);
    }

    /** Succeeds exactly on the cards the other reader mounts. */
    method Mount() returns (r: Result<()>)
      requires Valid()
      modifies this
      ensures Valid() && (r.Ok? <==> Mountable(card)) && (r.Ok? ==> mounted)
    {
      hide PartitionAt, MountsAt, Mounts, Describe, IsFat32Vbr, Readable, CacheHolds, MountedAs, Derived;
      assert mounted ==> Mountable(card);
      MountNeedsPartition(card);
      var sec0 := ReadSector(0);
      if sec0.Err? { return Err(sec0.message); }
      var offset := DetectPartitionOffset(sec0.value);
      if offset.Err? { return Err(offset.message); }
      partitionOffset := offset.value;
      MountableIff(card, partitionOffset, partitionLimit);
      // finding the partition has read its first sector, so this cannot fail
      var vbr := BootSector(sec0.value);
      r := MountVolume(vbr.value);
      if r.Ok? {
        if mounted { MountedOnce(card, Geo(), old(Geo())); }
        mounted := true;
      }
      assert mounted ==> Derived() && MountedAs(card, Geo());
    }

    /** The first sector of the partition, not read again when it is sector 0. */
    method BootSector(sec0: seq<byte>) returns (r: Result<seq<byte>>)
      requires CacheValid() && Readable(card, 0) && sec0 == card.Read(0)
      modifies `fatCache, `cacheOrder
      ensures CacheValid()
      ensures r.Ok? <==> Readable(card, partitionOffset)
      ensures r.Ok? ==> r.value == card.Read(partitionOffset) && |r.value| == SECTOR_BYTES
    {
      hide CacheHolds;
      if partitionOffset == 0 { return Ok(sec0); }
      r := ReadSector(partitionOffset);
    }

    /** `_parse_vbr` and `_verify_clean_fat`. */
    method MountVolume(vbr: seq<byte>) returns (r: Result<()>)
      requires CacheValid() && vbr == card.Read(partitionOffset) && |vbr| == SECTOR_BYTES
      modifies `fatCache, `cacheOrder, `secPerClus, `rsvdSecCnt, `numFats, `fatSz32, `rootClus, `totSec,
        `countOfClusters, `fat1Start, `fat2Start, `firstDataSector
      ensures CacheValid()
      ensures r.Ok? <==> MountsAt(card, partitionOffset, partitionLimit)
      ensures r.Ok? ==> Derived() && Geo() == Describe(vbr, partitionOffset)
    {
      hide VolumeFits, CleanFat, CacheHolds, Derived, Describe;
      r := ParseVbr(vbr);
      if r.Err? { return; }
      r := VerifyCleanFat();
    }

    method DetectPartitionOffset(sec0: seq<byte>) returns (r: Result<nat>)
      requires CacheValid() && Readable(card, 0) && sec0 == card.Read(0)
      requires IsFat32Vbr(sec0) ==> partitionLimit == card.Count()
      modifies `fatCache, `cacheOrder, `partitionLimit
      ensures CacheValid() && (IsFat32Vbr(sec0) ==> partitionLimit == card.Count())
      ensures r.Ok? <==> exists offset, limit :: PartitionAt(card, offset, limit)
      ensures r.Ok? ==> PartitionAt(card, r.value, partitionLimit)
    {
      hide CacheHolds, IsFat32Vbr, FatSlots, U32;
      var superfloppy := IsValidFat32Vbr(sec0);
      if superfloppy {
        assert PartitionAt(card, 0, partitionLimit);
        return Ok(0);
      }
      if sec0[510..512] != [0x55, 0xaa] { return Err("Invalid boot signature"); }
      var entries := ReadEntries(sec0);
      if entries.Err? { return Err(entries.message); }
      OneFatSlot(sec0);
      if |entries.value| != 1 { return Err("Exactly one FAT32 MBR partition is required"); }
      var (start, count) := entries.value[0];
      ghost var i: nat :| OnlyFat32Slot(sec0, i);
      if start == 0 || count == 0 || start + count > card.Count() { return Err("Partition exceeds device bounds"); }
      partitionLimit := start + count;
      assert SlotHolds(card, sec0, i, start, partitionLimit);
      var vbr := ReadSector(start);
      if vbr.Err? { return Err(vbr.message); }
      var valid := IsValidFat32Vbr(vbr.value);
      if !valid { return Err("Invalid FAT32 boot sector"); }
      assert PartitionAt(card, start, partitionLimit);
      return Ok(start);
    }

    /** The four partition entries, each taken out of the sector first. */
    static method ReadEntries(sec0: seq<byte>) returns (r: Result<seq<(nat, nat)>>)
      requires |sec0| == SECTOR_BYTES
      ensures r.Ok? <==> forall j: nat :: j < 4 ==> MbrType(sec0, j) != 0xee
      ensures r.Ok? ==> r.value == FatSlots(sec0, 4)
    {
      var entries: seq<(nat, nat)> := [];
      for i := 0 to 4
        invariant entries == FatSlots(sec0, i)
        invariant forall j: nat :: j < i ==> MbrType(sec0, j) != 0xee
      {
        var e := sec0[446 + i * 16..462 + i * 16];
        if e[4] == 0xee {
          assert MbrType(sec0, i) == 0xee;
          return Err("GPT is not supported");
        }
        if e[4] in {0x0b, 0x0c} { entries := entries + [(U32(e, 8), U32(e, 12))]; }
      }
      r := Ok(entries);
    }

    /** One field after the other. */
    static method IsValidFat32Vbr(sec: seq<byte>) returns (valid: bool)
      ensures valid <==> IsFat32Vbr(sec)
    {
      if |sec| != 512 { return false; }
      if sec[510..512] != [0x55, 0xaa] { return false; }
      if U16(sec, 11) != 512 { return false; }
      if sec[13] !in {1, 2, 4, 8, 16, 32, 64, 128} { return false; }
      if U16(sec, 14) == 0 { return false; }
      if sec[16] !in {1, 2} { return false; }
      if U16(sec, 17) != 0 { return false; }
      if U16(sec, 22) != 0 { return false; }
      if U32(sec, 36) == 0 { return false; }
      return true;
    }

    method ParseVbr(vbr: seq<byte>) returns (r: Result<()>)
      requires |vbr| == SECTOR_BYTES
      modifies `secPerClus, `rsvdSecCnt, `numFats, `fatSz32, `rootClus, `totSec, `countOfClusters,
        `fat1Start, `fat2Start, `firstDataSector
      ensures r.Ok? <==> VolumeFits(vbr, Describe(vbr, partitionOffset), partitionLimit, card.Count())
      ensures r.Ok? ==> Geo() == Describe(vbr, partitionOffset) && Derived()
    {
      hide FormatOk, SizesOk, LayoutFits, U16, U32, Derived;
      r := ParseFormat(vbr);
      if r.Err? { return; }
      r := ParseSizes(vbr);
      if r.Err? { return; }
      assert Geo() == Describe(vbr, partitionOffset);
      r := ParseLayout();
    }

    /** The fields of `_parse_vbr` up to the FAT16 sizes. */
    method ParseFormat(vbr: seq<byte>) returns (r: Result<()>)
      requires |vbr| == SECTOR_BYTES
      modifies `secPerClus, `rsvdSecCnt, `numFats
      ensures r.Ok? <==> FormatOk(vbr, vbr[13], U16(vbr, 14), vbr[16])
      ensures r.Ok? ==> secPerClus == vbr[13] && rsvdSecCnt == U16(vbr, 14) && numFats == vbr[16] && secPerClus > 0
    {
      hide IsPowerOfTwo, IsClusterSize, U16;
      if U16(vbr, 11) != 512 { return Err("Invalid sector size"); }
      var spc := vbr[13];
      PowersOfTwo(spc);
      if !IsPowerOfTwo(spc) { return Err("Invalid sectors per cluster"); }
      secPerClus := spc;
      rsvdSecCnt := U16(vbr, 14);
      if rsvdSecCnt == 0 { return Err("Reserved sector count must be non-zero"); }
      numFats := vbr[16];
      if numFats !in {1, 2} { return Err("Number of FATs must be 1 or 2"); }
      if U16(vbr, 17) != 0 { return Err("BPB_RootEntCnt must be 0 for FAT32"); }
      if U16(vbr, 19) != 0 { return Err("BPB_TotSec16 must be 0 for FAT32"); }
      if U16(vbr, 22) != 0 { return Err("BPB_FATSz16 must be 0 for FAT32"); }
      return Ok(());
    }

    /** The fields of `_parse_vbr` from the FAT32 sizes on. */
    method ParseSizes(vbr: seq<byte>) returns (r: Result<()>)
      requires |vbr| == SECTOR_BYTES
      modifies `fatSz32, `rootClus, `totSec
      ensures r.Ok? <==> SizesOk(vbr, Describe(vbr, partitionOffset), card.Count())
      ensures r.Ok? ==> totSec == U32(vbr, 32) && fatSz32 == U32(vbr, 36) && rootClus == U32(vbr, 44) && rootClus >= 2
    {
      hide U16, U32, Bit;
      totSec := U32(vbr, 32);
      if totSec == 0 { return Err("BPB_TotSec32 must be non-zero"); }
      if partitionOffset + totSec > card.Count() { return Err("FAT32 volume bounds exceed device capacity"); }
      fatSz32 := U32(vbr, 36);
      if fatSz32 == 0 { return Err("BPB_FATSz32 must be non-zero"); }
      if Bit(U16(vbr, 40), 0x80) { return Err("FAT32 is not in mirrored mode"); }
      if U16(vbr, 42) != 0 { return Err("FSversion must be 0"); }
      rootClus := U32(vbr, 44);
      if rootClus < 2 { return Err("Invalid root cluster"); }
      return Ok(());
    }

    /** The part of `_parse_vbr` that derives the layout from the fields. */
    method ParseLayout() returns (r: Result<()>)
      requires secPerClus > 0 && rootClus >= 2
      modifies `countOfClusters, `fat1Start, `fat2Start, `firstDataSector
      ensures r.Ok? <==> LayoutFits(Geo(), partitionLimit)
      ensures r.Ok? ==> Derived()
    {
      DeriveStarts();
      var dataSec := totSec - (rsvdSecCnt + numFats * fatSz32);
      assert dataSec == Geo().DataSectors();
      if dataSec <= 0 { return Err("Invalid data sector count <= 0"); }
      if partitionOffset + totSec > partitionLimit { return Err("Volume exceeds MBR partition"); }
      countOfClusters := dataSec / secPerClus;
      if countOfClusters > 0x0fff_ffed || (countOfClusters + 2) * 4 > fatSz32 * 512 {
        return Err("FAT capacity or cluster count invalid");
      }
      if !(2 <= rootClus < countOfClusters + 2) { return Err("Root cluster out of bounds"); }
      if countOfClusters < 65525 { return Err("Cluster count is less than FAT32 minimum 65525"); }
      return Ok(());
    }

    method DeriveStarts()
      modifies `fat1Start, `fat2Start, `firstDataSector
      ensures fat1Start == Geo().Fat1Start() && fat2Start == Geo().Fat2Start()
          && firstDataSector == Geo().FirstDataSector()
    {
      fat1Start := partitionOffset + rsvdSecCnt;
      fat2Start := fat1Start + fatSz32;
      firstDataSector := partitionOffset + rsvdSecCnt + numFats * fatSz32;
    }

    /** `get_fat_entry`: both sectors are read before they are compared. */
    method GetFatEntry(cluster: nat) returns (r: Result<nat>)
      requires CacheValid()
      modifies `fatCache, `cacheOrder
      ensures CacheValid()
      ensures Derived() ==> match FatEntry(card, Geo(), cluster) case Some(v) => r == Ok(v) case None => r.Err?
    {
      EntryInSector(cluster);
      hide CacheHolds, Readable, U32, Geometry.CountOfClusters, Geometry.FirstDataSector;
      if cluster < 2 || cluster >= countOfClusters + 2 { return Err("Cluster index out of valid range"); }
      var byteOffset := cluster * 4;
      var secIdx, intraSecOffset := byteOffset / 512, byteOffset % 512;
      if secIdx >= fatSz32 { return Err("FAT access exceeds FAT size"); }
      var fat1Sec := ReadSector(fat1Start + secIdx);
      if fat1Sec.Err? { return Err(fat1Sec.message); }
      var val1 := U32(fat1Sec.value, intraSecOffset) % 0x1000_0000;
      if numFats == 2 {
        var fat2Sec := ReadSector(fat2Start + secIdx);
        if fat2Sec.Err? { return Err(fat2Sec.message); }
        if fat1Sec.value != fat2Sec.value { return Err("FAT mirror mismatch"); }
      }
      return Ok(val1);
    }

    method VerifyCleanFat() returns (r: Result<()>)
      requires CacheValid()
      modifies `fatCache, `cacheOrder
      ensures CacheValid()
      ensures Derived() ==> (r.Ok? <==> CleanFat(card, Geo()))
    {
      hide CacheHolds, Readable, U32, Bit;
      var fat1Sec0 := ReadSector(fat1Start);
      if fat1Sec0.Err? { return Err(fat1Sec0.message); }
      if numFats == 2 {
        var fat2Sec0 := ReadSector(fat2Start);
        if fat2Sec0.Err? { return Err(fat2Sec0.message); }
        if fat1Sec0.value != fat2Sec0.value { return Err("FAT mirror mismatch"); }
      }
      var entry1 := U32(fat1Sec0.value, 4);
      if !Bit(entry1, 0x0800_0000) { return Err("Dirty FAT volume detected"); }
      if !Bit(entry1, 0x0400_0000) { return Err("FAT volume hard error detected"); }
      return Ok(());
    }

    /** Reads one log. It succeeds exactly when the complete root scan names the log once, as a file
      * whose chain and sectors are in order, and then returns the file's bytes; the name is reported
      * as not found exactly when the scan completes without meeting it. */
    method ReadFile(filename: string) returns (r: Outcome)
      requires Valid() && mounted
      modifies `fatCache, `cacheOrder
      ensures Valid()
      ensures r.Data? <==>
                && Normalize(filename).Some?
                && exists data :: Reads(card, Geo(), Normalize(filename).value, data)
      ensures r.Data? ==> Reads(card, Geo(), Normalize(filename).value, r.bytes)
      ensures r.FileNotFound? <==> Normalize(filename).Some? && NotFound(card, Geo(), Normalize(filename).value)
    {
      hide MountedAs, Listed, CacheHolds, Reads, Lookup, SoundGeometry, Normalize, NotFound, Scan, Named, FileReadable;
      var target := Normalize(filename);
      if target.None? { return Refused("Only BFLxxxxx.BBL root files are accepted"); }
      MountedIsSound(card, Geo());
      ghost var g := Geo();
      ghost var chain, slots;
      var found, visited;
      found, visited, chain, slots := FindTarget(target.value);
      AnswersNeedLookup(card, g, target.value);
      if found.Err? { return Refused(found.message); }
      ScanDecides(card, g, target.value, chain, found.value.scanned, slots);
      if found.value.entry.None? { return FileNotFound; }
      var (first, size) := found.value.entry.value;
      var data := ReadChain(first, size, visited);
      if data.Err? { return Refused(data.message); }
      return Data(data.value);
    }

    /** The root scan of `read_file`. */
    method FindTarget(target: string)
      returns (r: Result<LookupScan>, visited: set<nat>, ghost chain: seq<nat>, ghost slots: seq<DirSlot>)
      requires CacheValid() && Derived() && SoundGeometry(Geo(), card.Count())
      modifies `fatCache, `cacheOrder
      ensures CacheValid()
      ensures r.Err? ==> !Lookup(card, Geo(), target)
      ensures r.Ok? ==> Scan(card, Geo(), chain, r.value.scanned, slots) && visited == SetOf(chain)
      ensures r.Ok? ==> TargetOk(slots, target) && r.value.entry == TargetEntry(slots, target)
    {
      hide SoundGeometry, Scanning, Scan, Lookup, Scannable, Named, TargetOk, TargetEntry, RootLinkOk, CacheHolds,
           FatEntry;
      hide Derived, Geometry.FirstDataSector, Geometry.CountOfClusters;
      ghost var g := Geo();
      LookupScans(card, g, target);
      NothingNamed(target);
      visited, chain, slots := {}, [], [];
      AtRoot(card, g);
      hide SetOf, Clusters, AtCluster;
      var cur: nat := rootClus;
      var scan := LookupScan(0, None, false);
      while true
        invariant CacheValid()
        invariant visited == SetOf(chain)
        invariant TargetOk(slots, target) && scan.entry == TargetEntry(slots, target) && !scan.end
        invariant AtCluster(card, g, chain, scan.scanned, slots, cur)
        decreases Clusters(g) - visited
      {
        ClusterIsNeeded(card, g, chain, scan.scanned, slots, cur);
        if cur in visited { return Err("Cycle detected in root directory cluster chain"), visited, chain, slots; }
        visited := visited + {cur};
        var next := RootLink(cur);
        if next.Err? { return Err(next.message), visited, chain, slots; }
        ClusterOpens(card, g, chain, scan.scanned, slots, cur);
        chain := chain + [cur];
        r, slots := LookInCluster(cur, scan, target, chain, slots);
        if r.Err? { return r, visited, chain, slots; }
        scan := r.value;
        if scan.end { break; }
        next := GetFatEntry(cur);
        if next.value >= EOC {
          ChainEnds(card, g, chain, scan.scanned, slots);
          break;
        }
        AtNextCluster(card, g, chain, scan.scanned, slots, next.value);
        cur := next.value;
      }
      r := Ok(scan);
    }

    /** The link test of the root scan. */
    method RootLink(cur: nat) returns (r: Result<nat>)
      requires CacheValid() && Derived()
      modifies `fatCache, `cacheOrder
      ensures CacheValid()
      ensures r.Ok? <==> RootLinkOk(card, Geo(), cur)
      ensures r.Ok? ==> FatEntry(card, Geo(), cur) == Some(r.value)
    {
      hide FatEntry, CacheHolds;
      r := GetFatEntry(cur);
      if r.Ok? && r.value < EOC && !(2 <= r.value < Min(countOfClusters + 2, 0x0fff_fff0)) {
        r := Err("Invalid root chain link");
      }
    }

    method LookInCluster(cur: nat, scan0: LookupScan, target: string, ghost chain: seq<nat>, ghost slots0: seq<DirSlot>)
      returns (r: Result<LookupScan>, ghost slots: seq<DirSlot>)
      requires CacheValid() && Derived() && SoundGeometry(Geo(), card.Count())
      requires chain != [] && chain[|chain| - 1] == cur && Scanning(card, Geo(), chain, scan0.scanned, slots0)
      requires scan0.scanned == |Sectors(Geo(), chain[..|chain| - 1])| && !scan0.end
      requires TargetOk(slots0, target) && scan0.entry == TargetEntry(slots0, target)
      modifies `fatCache, `cacheOrder
      ensures CacheValid()
      ensures r.Ok? ==> TargetOk(slots, target) && r.value.entry == TargetEntry(slots, target)
      ensures r.Ok? && r.value.end ==> Scan(card, Geo(), chain, r.value.scanned, slots)
      ensures r.Ok? && !r.value.end ==> Scanning(card, Geo(), chain, r.value.scanned, slots)
                                        && r.value.scanned == |Sectors(Geo(), chain)|
      ensures r.Err? ==> !Lookup(card, Geo(), target)
    {
      hide SoundGeometry, Scanning, Scan, Named, Lookup, CacheHolds;
      ghost var g := Geo();
      var clusLba := firstDataSector + (cur - 2) * secPerClus;
      InRangeLast(card, g, chain, scan0.scanned, slots0);
      var scan, s: nat := scan0, 0;
      slots := slots0;
      ClusterDone(card, g, chain, scan0.scanned);
      while s < secPerClus && !scan.end
        invariant s <= secPerClus && CacheValid()
        invariant TargetOk(slots, target) && scan.entry == TargetEntry(slots, target)
        invariant scan.end ==> Scan(card, g, chain, scan.scanned, slots)
        invariant !scan.end ==> scan.scanned == scan0.scanned + s && Scanning(card, g, chain, scan.scanned, slots)
        decreases secPerClus - s, !scan.end
      {
        ClusterSector(card, g, chain, scan0.scanned, s);
        r, slots := LookInRootSector(clusLba + s, scan, target, chain, slots);
        if r.Err? { return r, slots; }
        scan := r.value;
        s := s + 1;
      }
      r := Ok(scan);
    }

    method LookInRootSector(lba: int, scan: LookupScan, target: string, ghost chain: seq<nat>,
                            ghost slots0: seq<DirSlot>)
      returns (r: Result<LookupScan>, ghost slots: seq<DirSlot>)
      requires CacheValid() && SoundGeometry(Geo(), card.Count())
      requires Scanning(card, Geo(), chain, scan.scanned, slots0)
      requires scan.scanned < |Sectors(Geo(), chain)| && lba == Sectors(Geo(), chain)[scan.scanned]
      requires TargetOk(slots0, target) && scan.entry == TargetEntry(slots0, target)
      modifies `fatCache, `cacheOrder
      ensures CacheValid()
      ensures r.Ok? ==> TargetOk(slots, target) && r.value.entry == TargetEntry(slots, target)
      ensures r.Ok? ==> r.value.scanned == scan.scanned + 1
      ensures r.Ok? && r.value.end ==> Scan(card, Geo(), chain, scan.scanned + 1, slots)
      ensures r.Ok? && !r.value.end ==> Scanning(card, Geo(), chain, scan.scanned + 1, slots)
      ensures r.Err? ==> !Lookup(card, Geo(), target)
    {
      hide SoundGeometry, Scanning, Scan, Lookup, Scannable, Readable, Named, CacheHolds, TargetOk, TargetEntry;
      hide Sectors, IsEnd, SectorSlots;
      ghost var g := Geo();
      slots := slots0;
      NextSectorIsNeeded(card, g, chain, scan.scanned, slots0);
      LookupScans(card, g, target);
      var scanned := scan.scanned + 1;
      if scanned > 4096 { return Err("Root directory scan exceeded 4096 sectors limit"), slots; }
      var sec := ReadSector(lba);
      if sec.Err? { return Err(sec.message), slots; }
      ghost var kept;
      r, kept := LookInSector(sec.value, target, scan.entry, slots0);
      assert SeenSlots(card, g, chain, scan.scanned, slots0, sec.value, kept);
      hide SeenSlots;
      slots := slots0 + SectorSlots(sec.value)[..kept];
      if r.Err? {
        NamedRefuses(card, g, chain, scan.scanned, slots0, sec.value, kept, target);
        return r, slots;
      }
      if r.value.end {
        SectorEnds(card, g, chain, scan.scanned, slots0, sec.value, kept);
      } else {
        assert SectorSlots(sec.value)[..16] == SectorSlots(sec.value);
        SectorPassed(card, g, chain, scan.scanned, slots0, sec.value);
      }
      r := Ok(r.value.(scanned := scanned));
    }

    /** The file half of `read_file`: the chain is followed and checked, then the data is read. */
    method ReadChain(first: nat, size: nat, root: set<nat>) returns (r: Result<seq<byte>>)
      requires CacheValid() && Derived() && SoundGeometry(Geo(), card.Count())
      modifies `fatCache, `cacheOrder
      ensures CacheValid()
      ensures r.Ok? <==> exists data :: FileReadable(card, Geo(), root, first, size, data)
      ensures r.Ok? ==> FileReadable(card, Geo(), root, first, size, r.value)
    {
      hide HasFileChain, CacheHolds, FileReadable, FileChain;
      ghost var g := Geo();
      FileReadableSize(card, g, root, first, size);
      if size == 0 { return Err("File is empty"); }
      if size > 64 * 1024 * 1024 { return Err("File size exceeds maximum 64 MiB limit"); }
      var bytesPerClus := secPerClus * 512;
      var expected := CeilDiv(size, bytesPerClus);
      ChainCoversFile(secPerClus, size, expected);
      FileReadableNeedsChain(card, g, root, first, size);
      var chain := FollowChain(first, expected, root);
      if chain.Err? { return Err(chain.message); }
      FileReadableIff(card, g, root, first, size, chain.value);
      ChainInVolume(card, g, root, first, chain.value);
      var buf := ReadSectors(chain.value, size);
      if buf.Err? { return Err(buf.message); }
      return Ok(buf.value[..size]);
    }

    /** The cluster loop of `read_file`. */
    method FollowChain(first: nat, expected: nat, root: set<nat>) returns (r: Result<seq<nat>>)
      requires CacheValid() && Derived() && SoundGeometry(Geo(), card.Count()) && expected > 0
      modifies `fatCache, `cacheOrder
      ensures CacheValid()
      ensures r.Ok? <==> HasFileChain(card, Geo(), root, first, expected)
      ensures r.Ok? ==> |r.value| == expected && FileChain(card, Geo(), root, first, r.value)
    {
      hide SoundGeometry, CacheHolds, FatEntry, AtLink, FileChain, HasFileChain, SetOf;
      ghost var g := Geo();
      assert countOfClusters == g.CountOfClusters();
      hide Derived, Geometry.FirstDataSector, Geometry.CountOfClusters;
      WalkStarts(card, g, root, first);
      var chain: seq<nat>, visited: set<nat>, cur: nat := [], {}, first;
      while true
        invariant CacheValid() && |chain| <= expected && visited == SetOf(chain)
        invariant AtLink(card, g, root, first, chain, cur)
        decreases expected - |chain|
      {
        StepIsNeeded(card, g, card.Count(), root, first, chain, cur, expected);
        BadClusterNeverDecides(card, g, root, first, chain, cur, expected);
        if cur < 2 || cur >= countOfClusters + 2 { return Err("Cluster out of valid cluster range"); }
        if cur in visited { return Err("Cycle detected in file cluster chain"); }
        if cur in root { return Err("File overlaps root directory"); }
        if cur >= 0x0fff_fff0 { return Err("Bad cluster link encountered"); }
        WalkOn(card, g, root, first, chain, cur);
        visited := visited + {cur};
        chain := chain + [cur];
        if |chain| > expected { return Err("File cluster chain longer than allocated size"); }
        var next := GetFatEntry(cur);
        if next.Err? { return Err(next.message); }
        if next.value >= EOC {
          if |chain| < expected { return Err("File cluster chain ended prematurely"); }
          ChainFound(card, g, root, first, expected, chain);
          break;
        }
        cur := next.value;
      }
      r := Ok(chain);
    }

    /** The data loop of `read_file`: sectors are read until the file is covered. */
    method ReadSectors(chain: seq<nat>, size: nat) returns (r: Result<seq<byte>>)
      requires CacheValid() && Derived()
      requires CeilDiv(size, 512) <= |Sectors(Geo(), chain)|
      modifies `fatCache, `cacheOrder
      ensures CacheValid()
      ensures var needed := Sectors(Geo(), chain)[..CeilDiv(size, 512)];
        && (r.Ok? <==> AllReadable(card, needed) && forall i :: 0 <= i < |needed| ==> needed[i] < Geo().VolumeEnd())
        && (r.Ok? ==> r.value == ReadAll(card, needed))
    {
      hide Sectors, CeilDiv, CacheHolds, ReadAll, Readable, AllReadable, ReadSoFar;
      ghost var g := Geo();
      ghost var all, total := Sectors(g, chain), CeilDiv(size, 512);
      assert firstDataSector == g.FirstDataSector();
      hide Derived, Geometry.FirstDataSector, Geometry.CountOfClusters;
      NoSectors(g, chain);
      NothingRead(card, g, all);
      var buf: seq<byte> := [];
      ghost var n: nat := 0;
      for k := 0 to |chain|
        invariant CacheValid() && |Sectors(g, chain[..k])| <= |all|
        invariant n == Min(total, |Sectors(g, chain[..k])|) && |buf| == 512 * n && ReadSoFar(card, g, all, n, buf)
      {
        var cLba := firstDataSector + (chain[k] - 2) * secPerClus;
        ghost var done := |Sectors(g, chain[..k])|;
        ClusterPartLength(g, chain, k);
        assert cLba == g.ClusterLba(chain[k]);
        hide Geometry.ClusterLba;
        SectorCount(size, n);
        var s := 0;
        while s < secPerClus && |buf| < size
          invariant 0 <= s <= secPerClus && CacheValid()
          invariant n == Min(total, done + s) && |buf| == 512 * n && ReadSoFar(card, g, all, n, buf)
          invariant |buf| < size <==> n < total
        {
          var secLba := cLba + s;
          ClusterPartSector(g, chain, k, s);
          assert n == done + s && all[n] == secLba;
          SectorNeeded(card, g, all, total, n);
          if secLba >= partitionOffset + totSec { return Err("Data sector out of volume bounds"); }
          var secData := ReadSector(secLba);
          if secData.Err? { return Err(secData.message); }
          ReadOne(card, g, all, n, buf);
          buf := buf + secData.value;
          n := n + 1;
          SectorCount(size, n);
          s := s + 1;
        }
      }
      AllRead(card, g, all, n, buf);
      r := Ok(buf);
    }
  }

  /** The first `n` needed sectors are inside the volume and their bytes are in the buffer. */
  ghost predicate ReadSoFar(card: Card, g: Geometry, all: seq<int>, n: nat, buf: seq<byte>) {
    && n <= |all| && buf == ReadAll(card, all[..n])
    && forall i :: 0 <= i < n ==> all[i] < g.VolumeEnd() && Readable(card, all[i])
  }

  lemma NothingNamed(target: string)
    ensures TargetOk([], target) && TargetEntry([], target) == None
  {
  }

  lemma NothingRead(card: Card, g: Geometry, all: seq<int>)
    ensures ReadSoFar(card, g, all, 0, [])
  {
  }

  lemma SectorNeeded(card: Card, g: Geometry, all: seq<int>, total: nat, n: nat)
    requires n < total <= |all|
    ensures AllReadable(card, all[..total]) ==> Readable(card, all[n])
    ensures (forall i :: 0 <= i < |all[..total]| ==> all[..total][i] < g.VolumeEnd()) ==> all[n] < g.VolumeEnd()
  {
    assert all[..total][n] == all[n];
  }

  lemma ReadOne(card: Card, g: Geometry, all: seq<int>, n: nat, buf: seq<byte>)
    requires ReadSoFar(card, g, all, n, buf) && n < |all| && all[n] < g.VolumeEnd() && Readable(card, all[n])
    ensures ReadSoFar(card, g, all, n + 1, buf + card.Read(all[n]))
  {
    hide Readable;
    assert all[..n + 1][..n] == all[..n];
  }

  lemma AllRead(card: Card, g: Geometry, all: seq<int>, n: nat, buf: seq<byte>)
    requires ReadSoFar(card, g, all, n, buf)
    ensures AllReadable(card, all[..n]) && (forall i :: 0 <= i < n ==> all[..n][i] < g.VolumeEnd())
    ensures buf == ReadAll(card, all[..n])
  {
  }

  lemma {:induction false} ReadAllLength(card: Card, sectors: seq<int>)
    requires AllReadable(card, sectors)
    ensures |ReadAll(card, sectors)| == 512 * |sectors|
  {
    if sectors != [] { ReadAllLength(card, sectors[..|sectors| - 1]); }
  }

  /** Every cluster that passes the range check is below the bad-cluster marks, so the test that
    * follows it never refuses. */
  lemma NoBadCluster(g: Geometry, cardSectors: nat, cur: nat)
    requires SoundGeometry(g, cardSectors)
    ensures !(cur < 2 || cur >= g.CountOfClusters() + 2) ==> cur < 0x0fff_fff0
  {
    if g.InRange(cur) { ClusterInVolume(g, cardSectors, cur); }
  }

  lemma BadClusterNeverDecides(card: Card, g: Geometry, root: set<nat>, first: nat, chain: seq<nat>, cur: nat,
                               length: nat)
    requires SoundGeometry(g, card.Count()) && AtLink(card, g, root, first, chain, cur)
    ensures HasFileChain(card, g, root, first, length) ==> cur < 0x0fff_fff0
  {
    hide FatEntry, HasFileChain, SoundGeometry;
    StepIsNeeded(card, g, card.Count(), root, first, chain, cur, length);
    NoBadCluster(g, card.Count(), cur);
  }

  lemma FileReadableSize(card: Card, g: Geometry, root: set<nat>, first: nat, size: nat)
    ensures (exists data :: FileReadable(card, g, root, first, size, data)) ==> 1 <= size <= MAX_FILE_BYTES
  {
    hide FileChain;
  }

  lemma FileReadableNeedsChain(card: Card, g: Geometry, root: set<nat>, first: nat, size: nat)
    ensures (exists data :: FileReadable(card, g, root, first, size, data)) ==>
              HasFileChain(card, g, root, first, CeilDiv(size, g.secPerClus * 512))
  {
    hide FileChain;
    if data, sectors :| FileReads(card, g, root, first, size, sectors, data) {
      FileSectorsIff(card, g, root, first, size);
    }
  }

  lemma FileReadableIff(card: Card, g: Geometry, root: set<nat>, first: nat, size: nat, chain: seq<nat>)
    requires SoundGeometry(g, card.Count()) && 1 <= size <= MAX_FILE_BYTES
    requires FileChain(card, g, root, first, chain) && |chain| == CeilDiv(size, g.secPerClus * 512)
    ensures CeilDiv(size, 512) <= |Sectors(g, chain)|
    ensures var needed := Sectors(g, chain)[..CeilDiv(size, 512)];
      && ((exists data :: FileReadable(card, g, root, first, size, data)) <==> AllReadable(card, needed))
      && (AllReadable(card, needed) ==>
            size <= |ReadAll(card, needed)| && FileReadable(card, g, root, first, size, ReadAll(card, needed)[..size]))
  {
    hide FileChain, Readable, ReadAll;
    SectorsLength(g, chain);
    ChainCoversFile(g.secPerClus, size, |chain|);
    var needed := Sectors(g, chain)[..CeilDiv(size, 512)];
    assert FileHasChain(card, g, root, first, size, chain);
    assert FileSectors(card, g, root, first, size, needed);
    if data, sectors :| FileReads(card, g, root, first, size, sectors, data) {
      FileSectorsUnique(card, g, root, first, size, sectors, needed);
    }
    if AllReadable(card, needed) {
      ReadAllLength(card, needed);
      CeilDivBounds(size, 512);
      assert FileReads(card, g, root, first, size, needed, ReadAll(card, needed)[..size]);
      assert FileReadable(card, g, root, first, size, ReadAll(card, needed)[..size]);
    }
  }

  // ---------------------------------------------------------------- the two readers agree

  lemma {:induction false} NamedOnce(slots: seq<DirSlot>, k: nat, target: string)
    requires k < |slots| && IsNamed(slots[k], target)
    requires forall j :: 0 <= j < |slots| && j != k ==> !IsNamed(slots[j], target)
    ensures Named(slots, target) == [slots[k]]
  {
    var front := slots[..|slots| - 1];
    if k == |front| { NamedNever(front, target); } else { NamedOnce(front, k, target); }
  }

  lemma {:induction false} NamedNever(slots: seq<DirSlot>, target: string)
    requires forall j :: 0 <= j < |slots| ==> !IsNamed(slots[j], target)
    ensures Named(slots, target) == []
  {
    if slots != [] { NamedNever(slots[..|slots| - 1], target); }
  }

  /** With unique names, the one slot that carries a log's name decides its lookup. */
  lemma UniqueTarget(slots: seq<DirSlot>, k: nat, target: string)
    requires UniqueNames(slots) && k < |slots| && IsBfl(slots[k]) && Short(slots[k]) == target
    ensures Named(slots, target) == [slots[k]]
  {
    forall j | 0 <= j < |slots| && j != k ensures !IsNamed(slots[j], target) {
      assert IsNamed(slots[j], target) ==> IsBfl(slots[j]) && NameOf(slots[j]) == NameOf(slots[k]);
    }
    NamedOnce(slots, k, target);
  }

  /** A name that two live slots of the scan carry is refused, never read. */
  lemma RepeatedRefused(card: Card, g: Geometry, target: string, chain: seq<nat>, n: nat, slots: seq<DirSlot>,
                        i: nat, j: nat)
    requires SoundGeometry(g, card.Count()) && Scan(card, g, chain, n, slots)
    requires i < j < |slots| && IsNamed(slots[i], target) && IsNamed(slots[j], target)
    ensures !Lookup(card, g, target)
  {
    hide Scan, SoundGeometry, IsNamed;
    NamedTwice(slots, i, j, target);
    forall done, m, all | Scan(card, g, done, m, all) ensures !TargetOk(all, target) {
      ScanIsUnique(card, g, card.Count(), chain, n, slots, done, m, all);
    }
  }

  lemma NamedTwice(slots: seq<DirSlot>, i: nat, j: nat, target: string)
    requires i < j < |slots| && IsNamed(slots[i], target) && IsNamed(slots[j], target)
    ensures |Named(slots, target)| >= 2
  {
    hide IsNamed, Named;
    NamedAppend(slots[..i], slots[i], target);
    assert slots[..i] + [slots[i]] == slots[..i + 1] && slots[..j] + [slots[j]] == slots[..j + 1];
    NamedPrefix(slots[..i + 1], slots[..j], target);
    NamedAppend(slots[..j], slots[j], target);
    NamedPrefix(slots[..j + 1], slots, target);
  }

  lemma NormalizeDotted(short: string)
    requires IsBblShort(short)
    ensures Normalize(DottedName(short)) == Some(short)
  {
    var name := DottedName(short);
    BblIsUpper(short);
    UpperKeeps(name);
    hide Upper;
    assert name[..8] + name[9..] == short;
  }

  /** A log may be asked for in lower case, letter by letter. */
  lemma AnyCase(short: string, filename: string)
    requires IsBblShort(short) && |filename| == 12
    requires forall i :: 0 <= i < 12 ==> SameLetter(filename[i], DottedName(short)[i])
    ensures Normalize(filename) == Some(short)
  {
    hide Upper;
    var name := DottedName(short);
    forall i | 0 <= i < 12 ensures UpperOf(filename[i]) == [name[i]] { DottedChar(short, i); }
    UpperIs(filename, name);
    assert name[..8] + name[9..] == short;
  }

  /** The character itself, or its lower-case letter. */
  predicate SameLetter(c: char, upper: char) {
    c == upper || ('A' <= upper <= 'Z' && c as int == upper as int + 32)
  }

  lemma DottedChar(short: string, i: nat)
    requires IsBblShort(short) && i < 12
    ensures DottedName(short)[i] == '.' || 'A' <= DottedName(short)[i] <= 'Z' || IsDigit(DottedName(short)[i])
  {
    assert short[0] == short[..3][0] && short[1] == short[..3][1] && short[2] == short[..3][2];
    assert short[8] == short[8..][0] && short[9] == short[8..][1] && short[10] == short[8..][2];
  }

  lemma {:induction false} UpperIs(s: string, upper: string)
    requires |s| == |upper| && forall i :: 0 <= i < |s| ==> UpperOf(s[i]) == [upper[i]]
    ensures Upper(s) == upper
  {
    hide UpperOf;
    if s != "" {
      UpperIs(s[..|s| - 1], upper[..|s| - 1]);
      assert upper == upper[..|s| - 1] + [upper[|s| - 1]];
    }
  }

  /** Nothing but a log's name is ever looked up. */
  lemma OnlyLogNames(filename: string)
    ensures Normalize(filename).Some? ==>
              IsBblShort(Normalize(filename).value) && Upper(filename) == DottedName(Normalize(filename).value)
  {
    hide Upper;
    var upper := Upper(filename);
    if |upper| == 12 && upper[8] == '.' { assert upper == upper[..8] + "." + upper[9..]; }
  }

  /** The ligature counts as its two letters. */
  lemma LigatureName(digits: string)
    requires |digits| == 5 && forall i :: 0 <= i < 5 ==> IsDigit(digits[i])
    ensures Normalize("b\U{FB02}" + digits + ".bbl") == Some("BFL" + digits + "BBL")
  {
    var short := "BFL" + digits + "BBL";
    assert short[..3] == "BFL" && short[8..] == "BBL" && forall i :: 3 <= i < 8 ==> short[i] == digits[i - 3];
    var rest, name := digits + ".bbl", digits + ".BBL";
    UpperIs(rest, name);
    UpperAppend("b\U{FB02}", rest);
    assert "b\U{FB02}" + digits + ".bbl" == "b\U{FB02}" + rest;
    assert Upper("b\U{FB02}") == "BFL" by { TwoChars(); }
    hide Upper;
    assert "BFL" + name == DottedName(short);
    assert DottedName(short)[..8] + DottedName(short)[9..] == short;
  }

  lemma TwoChars()
    ensures Upper("b\U{FB02}") == "BFL"
  {
    assert "b\U{FB02}"[..1] == "b" && "b"[..0] == "";
    assert Upper("b") == "B";
  }

  lemma UpperStep(s: string, c: char)
    ensures Upper(s + [c]) == Upper(s) + UpperOf(c)
  {
    hide UpperOf;
    assert (s + [c])[..|s|] == s;
  }

  lemma {:induction false} UpperAppend(a: string, b: string)
    ensures Upper(a + b) == Upper(a) + Upper(b)
    decreases |b|
  {
    hide UpperOf;
    if b == "" {
      assert a + b == a;
    } else {
      UpperAppend(a, b[..|b| - 1]);
      UpperStep(a + b[..|b| - 1], b[|b| - 1]);
      UpperStep(b[..|b| - 1], b[|b| - 1]);
      hide Upper;
      assert a + b[..|b| - 1] + [b[|b| - 1]] == a + b && b[..|b| - 1] + [b[|b| - 1]] == b;
    }
  }

  lemma {:induction false} UpperKeeps(s: string)
    requires forall i :: 0 <= i < |s| ==> UpperOf(s[i]) == [s[i]]
    ensures Upper(s) == s
  {
    hide UpperOf;
    if s != "" { UpperKeeps(s[..|s| - 1]); }
  }

  lemma BblIsUpper(s: string)
    requires IsBblShort(s)
    ensures forall i :: 0 <= i < 11 ==> UpperOf(s[i]) == [s[i]]
  {
    assert s[0] == s[..3][0] && s[1] == s[..3][1] && s[2] == s[..3][2];
    assert s[8] == s[8..][0] && s[9] == s[8..][1] && s[10] == s[8..][2];
  }

  /** The two readers mount the same cards, and as the same volume. */
  lemma MountsAgree(one: Fat32RootReader, two: FAT32Reader)
    requires one.Valid() && two.Valid() && one.card == two.card && one.mounted && two.mounted
    ensures one.Geo() == two.Geo()
  {
    hide MountedAs, CacheHolds, Listed;
    MountedOnce(one.card, one.Geo(), two.Geo());
  }

  /** A log the first reader lists: the second reader reads it exactly when the first reader's
    * sector list exists and those sectors can be read, and then returns exactly their bytes, cut to
    * the listed size. */
  lemma ReadersAgree(card: Card, g: Geometry, files: seq<Entry>, subdirs: seq<string>, root: set<nat>, e: Entry)
    requires SoundGeometry(g, card.Count())
    requires Listing(card, g, files, subdirs, root) && e in files
    ensures Normalize(e.name).Some?
    ensures forall data :: Reads(card, g, Normalize(e.name).value, data) <==>
              exists sectors :: FileReads(card, g, root, e.firstCluster, e.size, sectors, data)
  {
    hide Scan, FileReads, IsBfl, SoundGeometry, UniqueNames;
    var chain, n, slots :| ListingOf(card, g, files, subdirs, root, chain, n, slots);
    assert e in multiset(BflFiles(slots));
    FilesComeFromSlots(slots, e);
    var k :| 0 <= k < |slots| && IsBfl(slots[k]) && !IsSubdirectory(slots[k]) && e == EntryOf(slots[k]);
    ListedDecides(card, g, chain, n, slots, k);
  }

  lemma ListedDecides(card: Card, g: Geometry, chain: seq<nat>, n: nat, slots: seq<DirSlot>, k: nat)
    requires SoundGeometry(g, card.Count()) && Scan(card, g, chain, n, slots) && UniqueNames(slots)
    requires k < |slots| && IsBfl(slots[k]) && !IsSubdirectory(slots[k])
    ensures Normalize(NameOf(slots[k])).Some?
    ensures forall data :: Reads(card, g, Normalize(NameOf(slots[k])).value, data) <==>
              FileReadable(card, g, SetOf(chain), EntryOf(slots[k]).firstCluster, EntryOf(slots[k]).size, data)
  {
    hide Scan, FileReadable, Reads, SoundGeometry, UniqueNames;
    var target := Short(slots[k]);
    NormalizeDotted(target);
    UniqueTarget(slots, k, target);
    ScanDecides(card, g, target, chain, n, slots);
  }

  /** A log-named subdirectory is refused, not reported missing. */
  lemma SubdirectoryRefused(card: Card, g: Geometry, files: seq<Entry>, subdirs: seq<string>, root: set<nat>,
                            name: string)
    requires SoundGeometry(g, card.Count())
    requires Listing(card, g, files, subdirs, root) && name in subdirs
    ensures Normalize(name).Some? && !Lookup(card, g, Normalize(name).value)
  {
    hide Scan, SoundGeometry;
    var chain, n, slots :| ListingOf(card, g, files, subdirs, root, chain, n, slots);
    assert name in multiset(BflDirs(slots));
    DirsComeFromSlots(slots, name);
    var k :| 0 <= k < |slots| && IsBfl(slots[k]) && IsSubdirectory(slots[k]) && name == NameOf(slots[k]);
    var target := Short(slots[k]);
    NormalizeDotted(target);
    UniqueTarget(slots, k, target);
    forall chain', n', slots' | Scan(card, g, chain', n', slots') ensures !TargetOk(slots', target) {
      ScanIsUnique(card, g, card.Count(), chain, n, slots, chain', n', slots');
    }
  }

  /** A log name that is neither listed nor a subdirectory is reported as not found. */
  lemma UnlistedNotFound(card: Card, g: Geometry, files: seq<Entry>, subdirs: seq<string>, root: set<nat>,
                         filename: string)
    requires SoundGeometry(g, card.Count())
    requires Listing(card, g, files, subdirs, root) && Normalize(filename).Some?
    requires !Has(files, DottedName(Normalize(filename).value)) && DottedName(Normalize(filename).value) !in subdirs
    ensures NotFound(card, g, Normalize(filename).value)
  {
    hide Scan, SoundGeometry;
    var target := Normalize(filename).value;
    var chain, n, slots :| ListingOf(card, g, files, subdirs, root, chain, n, slots);
    forall k | 0 <= k < |slots| ensures !IsNamed(slots[k], target) {
      if IsNamed(slots[k], target) {
        ListedOrSubdir(slots, files, subdirs, k);
      }
    }
    NamedNever(slots, target);
  }

  lemma ListedOrSubdir(slots: seq<DirSlot>, files: seq<Entry>, subdirs: seq<string>, k: nat)
    requires k < |slots| && IsBfl(slots[k])
    requires multiset(files) == multiset(BflFiles(slots)) && multiset(subdirs) == multiset(BflDirs(slots))
    ensures Has(files, NameOf(slots[k])) || NameOf(slots[k]) in subdirs
  {
    if IsSubdirectory(slots[k]) {
      DirsComeFromSlots(slots, NameOf(slots[k]));
      assert NameOf(slots[k]) in multiset(subdirs);
    } else {
      var e := EntryOf(slots[k]);
      FilesComeFromSlots(slots, e);
      assert e in multiset(files);
      var i :| 0 <= i < |files| && files[i] == e;
      assert files[i].name == NameOf(slots[k]);
    }
  }
}
