/** fat32-root.ts: the read-only FAT32 root reader, with its bounded first-in first-out sector cache. */
module FatRootReader {
  import opened Bytes
  import opened FatVolume
  import opened FatChains
  import opened FatDirectory
  import opened NameOrder

  const META_CACHE_CAP: nat := 4096

  /** The answer to a directory listing: the logs and the log-named subdirectories, sorted. */
  ghost predicate Listing(card: Card, g: Geometry, files: seq<Entry>, subdirs: seq<string>, root: set<nat>) {
    exists chain, n, slots :: ListingOf(card, g, files, subdirs, root, chain, n, slots)
  }

  ghost predicate Listed(card: Card, g: Geometry, subdirs: seq<string>, root: set<nat>) {
    exists files :: Listing(card, g, files, subdirs, root)
  }

  ghost predicate ListingOf(card: Card, g: Geometry, files: seq<Entry>, subdirs: seq<string>, root: set<nat>,
                            chain: seq<nat>, n: nat, slots: seq<DirSlot>)
  {
    && Scan(card, g, chain, n, slots)
    && UniqueNames(slots)
    && root == SetOf(chain)
    && multiset(files) == multiset(BflFiles(slots)) && Ascending(files, EntryName)
    && multiset(subdirs) == multiset(BflDirs(slots)) && Ascending(subdirs, Itself)
  }

  const EntryName: Entry -> string := (e: Entry) => e.name

  const Itself: string -> string := (s: string) => s

  ghost predicate MountedAs(card: Card, g: Geometry) {
    exists limit :: Mounts(card, g, limit)
  }

  ghost predicate Mountable(card: Card) {
    exists g :: MountedAs(card, g)
  }

  // ---------------------------------------------------------------- the partition table

  /** Start and length of the FAT32 slots among the first `n`, in table order. */
  function FatSlots(sec0: seq<byte>, n: nat): seq<(nat, nat)>
    requires |sec0| == SECTOR_BYTES && n <= 4
  {
    if n == 0 then []
    else FatSlots(sec0, n - 1)
         + if IsFat32Slot(sec0, n - 1)
           then [(U32(sec0, 446 + (n - 1) * 16 + 8), U32(sec0, 446 + (n - 1) * 16 + 12))] else []
  }

  lemma OneFatSlot(sec0: seq<byte>)
    requires |sec0| == SECTOR_BYTES && forall j: nat :: j < 4 ==> MbrType(sec0, j) != 0xee
    ensures |FatSlots(sec0, 4)| == 1 <==> exists i: nat :: OnlyFat32Slot(sec0, i)
    ensures forall i: nat :: OnlyFat32Slot(sec0, i) ==>
              FatSlots(sec0, 4) == [(U32(sec0, 446 + i * 16 + 8), U32(sec0, 446 + i * 16 + 12))]
  {
    var a, b, c, d := IsFat32Slot(sec0, 0), IsFat32Slot(sec0, 1), IsFat32Slot(sec0, 2), IsFat32Slot(sec0, 3);
    assert |FatSlots(sec0, 1)| == if a then 1 else 0;
    assert |FatSlots(sec0, 2)| == |FatSlots(sec0, 1)| + if b then 1 else 0;
    assert |FatSlots(sec0, 3)| == |FatSlots(sec0, 2)| + if c then 1 else 0;
    assert |FatSlots(sec0, 4)| == |FatSlots(sec0, 3)| + if d then 1 else 0;
    if |FatSlots(sec0, 4)| == 1 {
      var i := if a then 0 else if b then 1 else if c then 2 else 3;
      assert OnlyFat32Slot(sec0, i);
    }
  }

  method ReadPartitionTable(sec0: seq<byte>) returns (r: Result<seq<(nat, nat)>>)
    requires |sec0| == SECTOR_BYTES
    ensures r.Ok? <==> forall j: nat :: j < 4 ==> MbrType(sec0, j) != 0xee
    ensures r.Ok? ==> r.value == FatSlots(sec0, 4)
  {
    var entries: seq<(nat, nat)> := [];
    for i := 0 to 4
      invariant entries == FatSlots(sec0, i)
      invariant forall j: nat :: j < i ==> MbrType(sec0, j) != 0xee
    {
      var o := 446 + i * 16;
      var kind := sec0[o + 4];
      if kind == 0xee {
        assert MbrType(sec0, i) == 0xee;
        return Err("GPT is not supported");
      }
      if kind == 0x0b || kind == 0x0c {
        entries := entries + [(U32(sec0, o + 8), U32(sec0, o + 12))];
      }
    }
    r := Ok(entries);
  }

  /** The bit trick `spc & (spc - 1)` recognises the powers of two. */
  predicate IsPowerOfTwo(spc: byte) {
    !(spc == 0 || OtherBits(spc as bv8) != 0 || spc > 128)
  }

  function OtherBits(b: bv8): bv8 { b & (b - 1) }

  lemma PowersOfTwo(spc: byte)
    ensures (IsPowerOfTwo(spc) <==> IsClusterSize(spc)) && (IsClusterSize(spc) ==> spc > 0)
  {
    BitTrick(spc as bv8);
    ByteRoundTrip(spc);
    hide OtherBits;
  }

  lemma BitTrick(b: bv8)
    ensures b != 0 && OtherBits(b) == 0 <==>
              b == 1 || b == 2 || b == 4 || b == 8 || b == 16 || b == 32 || b == 64 || b == 128
  {
  }

  // ---------------------------------------------------------------- the sector cache

  /** Every cached sector is on the card and is what the card holds; `order` is the insertion order
    * of the JavaScript Map. */
  ghost predicate CacheHolds(card: Card, cache: map<int, seq<byte>>, order: seq<int>) {
    && Distinct(order)
    && cache.Keys == SetOf(order)
    && |cache| == |order| <= META_CACHE_CAP
    && forall lba :: lba in cache ==> Readable(card, lba) && cache[lba] == card.Read(lba)
  }

  lemma ForgetOldest(card: Card, cache: map<int, seq<byte>>, order: seq<int>)
    requires CacheHolds(card, cache, order) && |cache| > 0
    ensures CacheHolds(card, cache - {order[0]}, order[1..])
    ensures |cache - {order[0]}| == |cache| - 1
  {
    assert order == [order[0]] + order[1..];
    assert order[0] in SetOf(order);
    assert SetOf(order[1..]) == SetOf(order) - {order[0]};
    assert (cache - {order[0]}).Keys == cache.Keys - {order[0]};
    assert |(cache - {order[0]}).Keys| == |cache.Keys| - 1;
  }

  lemma Remember(card: Card, cache: map<int, seq<byte>>, order: seq<int>, lba: int)
    requires CacheHolds(card, cache, order) && |cache| < META_CACHE_CAP
    requires lba !in cache && Readable(card, lba)
    ensures CacheHolds(card, cache[lba := card.Read(lba)], order + [lba])
  {
    hide Readable;
    AppendKey(order, lba);
    hide SetOf, Distinct;
    CacheGrows(cache, lba, card.Read(lba));
  }

  lemma AppendKey(order: seq<int>, lba: int)
    requires Distinct(order) && lba !in SetOf(order)
    ensures Distinct(order + [lba]) && SetOf(order + [lba]) == SetOf(order) + {lba}
  {
    assert lba !in order;
  }

  lemma CacheGrows(cache: map<int, seq<byte>>, lba: int, sec: seq<byte>)
    requires lba !in cache
    ensures cache[lba := sec].Keys == cache.Keys + {lba} && |cache[lba := sec]| == |cache| + 1
  {
    assert cache[lba := sec].Keys == cache.Keys + {lba};
    assert |cache[lba := sec].Keys| == |cache.Keys| + 1;
  }

  // ---------------------------------------------------------------- the reader

  /** A directory entry has a sector list. */
  ghost predicate HasSectors(card: Card, g: Geometry, root: set<nat>, first: nat, size: nat) {
    exists sectors :: FileSectors(card, g, root, first, size, sectors)
  }

  class Fat32RootReader {
    const card: Card
    var cache: map<int, seq<byte>>
    var cacheOrder: seq<int>
    var partitionLimit: nat
    var partitionOffset: nat
    var secPerClus: nat
    var rsvdSecCnt: nat
    var numFats: nat
    var fatSz32: nat
    var rootClus: nat
    var totSec: nat
    var countOfClusters: nat
    var fat1Start: nat
    var fat2Start: nat
    var firstDataSector: nat
    var rootClusters: set<nat>
    var mounted: bool
    var listed: bool
    var bblSubdirectories: seq<string>

    ghost function Geo(): Geometry
      reads `partitionOffset, `secPerClus, `rsvdSecCnt, `numFats, `fatSz32, `rootClus, `totSec
    {
      Geometry(partitionOffset, secPerClus, rsvdSecCnt, numFats, fatSz32, rootClus, totSec)
    }

    /** The stored quantities are the ones derived from the boot sector fields. */
    ghost predicate Derived()
      reads `partitionOffset, `secPerClus, `rsvdSecCnt, `numFats, `fatSz32, `rootClus, `totSec
      reads `countOfClusters, `fat1Start, `fat2Start, `firstDataSector
    {
      && countOfClusters == Geo().CountOfClusters()
      && fat1Start == Geo().Fat1Start()
      && fat2Start == Geo().Fat2Start()
      && firstDataSector == Geo().FirstDataSector()
    }

    ghost predicate CacheValid()
      reads `cache, `cacheOrder
    {
      CacheHolds(card, cache, cacheOrder)
    }

    ghost predicate Valid()
      reads this
    {
      && CacheValid()
      && (Readable(card, 0) && IsFat32Vbr(card.Read(0)) ==> partitionLimit == card.Count())
      && (mounted ==> Derived() && MountedAs(card, Geo()))
      && (listed ==> mounted && Listed(card, Geo(), bblSubdirectories, rootClusters))
    }

    constructor (card: Card)
      ensures Valid() && this.card == card && !mounted && !listed
    {
      this.card := card;
      cache, cacheOrder := map[], [];
      partitionLimit := card.Count();
      partitionOffset, secPerClus, rsvdSecCnt, numFats := 0, 0, 0, 0;
      fatSz32, rootClus, totSec, countOfClusters := 0, 0, 0, 0;
      fat1Start, fat2Start, firstDataSector := 0, 0, 0;
      rootClusters, mounted, listed, bblSubdirectories := {}, false, false, [];
    }

    /** A metadata read through the cache answers exactly what an uncached read answers. A miss
      * stores the sector and, when the cache is full, forgets the oldest one. */
    method Meta(lba: int) returns (r: Result<seq<byte>>)
      requires CacheValid()
      modifies `cache, `cacheOrder
      ensures CacheValid()
      ensures r.Ok? <==> Readable(card, lba)
      ensures r.Ok? ==> r.value == card.Read(lba) && |r.value| == SECTOR_BYTES
      ensures cacheOrder == if r.Err? || lba in old(cache) then old(cacheOrder)
                            else if |old(cache)| == 4096 then old(cacheOrder)[1..] + [lba]
                            else old(cacheOrder) + [lba]
    {
      if lba < 0 || lba >= card.Count() { return Err("out of device bounds"); }
      if lba in cache { return Ok(cache[lba]); }
      var sec := card.Read(lba);
      if |sec| != 512 { return Err("unexpected sector length"); }
      if |cache| >= META_CACHE_CAP {
        var oldest := cacheOrder[0];
        ForgetOldest(card, cache, cacheOrder);
        cache := cache - {oldest};
        cacheOrder := cacheOrder[1..];
      }
      Remember(card, cache, cacheOrder, lba);
      cache := cache[lba := sec];
      cacheOrder := cacheOrder + [lba];
      return Ok(sec);
    }

    /** Succeeds exactly on the cards that carry a mountable volume. */
    method Mount() returns (r: Result<()>)
      requires Valid()
      modifies this
      ensures Valid()
      ensures r.Ok? <==> Mountable(card)
      ensures r.Ok? ==> mounted && MountedAs(card, Geo())
      ensures listed == old(listed) && rootClusters == old(rootClusters)
    {
      hide IsFat32Vbr, Readable, Listed, CacheHolds, MountedAs, Derived;
      assert mounted ==> Mountable(card);
      r := FindVolume();
      if r.Err? { return; }
      if mounted { MountedOnce(card, Geo(), old(Geo())); }
      mounted := true;
    }

    /** The steps of `mount`. */
    method FindVolume() returns (r: Result<()>)
      requires CacheValid() && (Readable(card, 0) && IsFat32Vbr(card.Read(0)) ==> partitionLimit == card.Count())
      modifies `cache, `cacheOrder, `partitionLimit, `partitionOffset, `secPerClus, `rsvdSecCnt, `numFats, `fatSz32,
        `rootClus, `totSec, `countOfClusters, `fat1Start, `fat2Start, `firstDataSector
      ensures CacheValid() && (Readable(card, 0) && IsFat32Vbr(card.Read(0)) ==> partitionLimit == card.Count())
      ensures r.Ok? <==> Mountable(card)
      ensures r.Ok? ==> Derived() && MountedAs(card, Geo())
    {
      hide PartitionAt, MountsAt, Mounts, Describe, IsFat32Vbr, Readable, CacheHolds, MountedAs, Derived;
      MountNeedsPartition(card);
      var sec0 := Meta(0);
      if sec0.Err? { return Err(sec0.message); }
      var offset := DetectPartitionOffset(sec0.value);
      if offset.Err? { return Err(offset.message); }
      partitionOffset := offset.value;
      MountableIff(card, partitionOffset, partitionLimit);
      // finding the partition has read its first sector, so this cannot fail
      var vbr := BootSector(sec0.value);
      r := MountVolume(vbr.value);
    }

    /** The first sector of the partition, not read again when it is sector 0. */
    method BootSector(sec0: seq<byte>) returns (r: Result<seq<byte>>)
      requires CacheValid() && Readable(card, 0) && sec0 == card.Read(0)
      modifies `cache, `cacheOrder
      ensures CacheValid()
      ensures r.Ok? <==> Readable(card, partitionOffset)
      ensures r.Ok? ==> r.value == card.Read(partitionOffset) && |r.value| == SECTOR_BYTES
    {
      hide CacheHolds;
      if partitionOffset == 0 { return Ok(sec0); }
      r := Meta(partitionOffset);
    }

    /** The part of `mount` that follows once the boot sector is read. */
    method MountVolume(vbr: seq<byte>) returns (r: Result<()>)
      requires CacheValid() && vbr == card.Read(partitionOffset) && |vbr| == SECTOR_BYTES
      modifies `cache, `cacheOrder, `secPerClus, `rsvdSecCnt, `numFats, `fatSz32, `rootClus, `totSec, `countOfClusters,
        `fat1Start, `fat2Start, `firstDataSector
      ensures CacheValid()
      ensures r.Ok? <==> MountsAt(card, partitionOffset, partitionLimit)
      ensures r.Ok? ==> Derived() && Geo() == Describe(vbr, partitionOffset)
    {
      hide VolumeFits, CleanFat, CacheHolds, Derived, Describe;
      r := ParseVbr(vbr);
      if r.Err? { return; }
      r := VerifyCleanFat();
    }

    method DetectPartitionOffset(sec0: seq<byte>) returns (r: Result<nat>)
      requires CacheValid() && Readable(card, 0) && sec0 == card.Read(0)
      requires IsFat32Vbr(sec0) ==> partitionLimit == card.Count()
      modifies `cache, `cacheOrder, `partitionLimit
      ensures CacheValid() && (IsFat32Vbr(sec0) ==> partitionLimit == card.Count())
      ensures r.Ok? <==> exists offset, limit :: PartitionAt(card, offset, limit)
      ensures r.Ok? ==> PartitionAt(card, r.value, partitionLimit)
    {
      hide CacheHolds, IsFat32Vbr, FatSlots;
      if IsFat32Vbr(sec0) {
        assert PartitionAt(card, 0, partitionLimit);
        return Ok(0);
      }
      if sec0[510] != 0x55 || sec0[511] != 0xaa { return Err("Invalid boot signature"); }
      var entries := ReadPartitionTable(sec0);
      if entries.Err? { return Err(entries.message); }
      OneFatSlot(sec0);
      if |entries.value| != 1 { return Err("Exactly one FAT32 MBR partition is required"); }
      var (start, count) := entries.value[0];
      ghost var i: nat :| OnlyFat32Slot(sec0, i);
      if start == 0 || count == 0 || start + count > card.Count() { return Err("Partition exceeds device bounds"); }
      partitionLimit := start + count;
      assert SlotHolds(card, sec0, i, start, partitionLimit);
      var vbr := Meta(start);
      if vbr.Err? { return Err(vbr.message); }
      if !IsFat32Vbr(vbr.value) { return Err("Invalid FAT32 boot sector"); }
      assert PartitionAt(card, start, partitionLimit);
      return Ok(start);
    }

    method ParseVbr(vbr: seq<byte>) returns (r: Result<()>)
      requires |vbr| == SECTOR_BYTES
      modifies `secPerClus, `rsvdSecCnt, `numFats, `fatSz32, `rootClus, `totSec, `countOfClusters,
        `fat1Start, `fat2Start, `firstDataSector
      ensures r.Ok? <==> VolumeFits(vbr, Describe(vbr, partitionOffset), partitionLimit, card.Count())
      ensures r.Ok? ==> Geo() == Describe(vbr, partitionOffset) && Derived()
    {
      hide FormatOk, SizesOk, LayoutFits, U16, U32, Derived;
      r := ParseFormat(vbr);
      if r.Err? { return; }
      r := ParseSizes(vbr);
      if r.Err? { return; }
      assert Geo() == Describe(vbr, partitionOffset);
      r := ParseLayout();
    }

    /** The fields of `parseVbr` up to the FAT16 sizes. */
    method ParseFormat(vbr: seq<byte>) returns (r: Result<()>)
      requires |vbr| == SECTOR_BYTES
      modifies `secPerClus, `rsvdSecCnt, `numFats
      ensures r.Ok? <==> FormatOk(vbr, vbr[13], U16(vbr, 14), vbr[16])
      ensures r.Ok? ==> secPerClus == vbr[13] && rsvdSecCnt == U16(vbr, 14) && numFats == vbr[16] && secPerClus > 0
    {
      hide IsPowerOfTwo, IsClusterSize, U16;
      if U16(vbr, 11) != 512 { return Err("Invalid sector size"); }
      var spc := vbr[13];
      PowersOfTwo(spc);
      if !IsPowerOfTwo(spc) { return Err("Invalid sectors per cluster"); }
      secPerClus := spc;
      rsvdSecCnt := U16(vbr, 14);
      if rsvdSecCnt == 0 { return Err("Reserved sector count must be non-zero"); }
      numFats := vbr[16];
      if numFats != 1 && numFats != 2 { return Err("Number of FATs must be 1 or 2"); }
      if U16(vbr, 17) != 0 { return Err("BPB_RootEntCnt must be 0 for FAT32"); }
      if U16(vbr, 19) != 0 { return Err("BPB_TotSec16 must be 0 for FAT32"); }
      if U16(vbr, 22) != 0 { return Err("BPB_FATSz16 must be 0 for FAT32"); }
      return Ok(());
    }

    /** The fields of `parseVbr` from the FAT32 sizes on. */
    method ParseSizes(vbr: seq<byte>) returns (r: Result<()>)
      requires |vbr| == SECTOR_BYTES
      modifies `fatSz32, `rootClus, `totSec
      ensures r.Ok? <==> SizesOk(vbr, Describe(vbr, partitionOffset), card.Count())
      ensures r.Ok? ==> totSec == U32(vbr, 32) && fatSz32 == U32(vbr, 36) && rootClus == U32(vbr, 44) && rootClus >= 2
    {
      hide U16, U32, Bit;
      totSec := U32(vbr, 32);
      if totSec == 0 { return Err("BPB_TotSec32 must be non-zero"); }
      if partitionOffset + totSec > card.Count() { return Err("FAT32 volume bounds exceed device capacity"); }
      fatSz32 := U32(vbr, 36);
      if fatSz32 == 0 { return Err("BPB_FATSz32 must be non-zero"); }
      if Bit(U16(vbr, 40), 0x80) { return Err("FAT32 is not in mirrored mode"); }
      if U16(vbr, 42) != 0 { return Err("FSversion must be 0"); }
      rootClus := U32(vbr, 44);
      if rootClus < 2 { return Err("Invalid root cluster"); }
      return Ok(());
    }

    /** The part of `parseVbr` that derives the layout from the fields. */
    method ParseLayout() returns (r: Result<()>)
      requires secPerClus > 0 && rootClus >= 2
      modifies `countOfClusters, `fat1Start, `fat2Start, `firstDataSector
      ensures r.Ok? <==> LayoutFits(Geo(), partitionLimit)
      ensures r.Ok? ==> Derived()
    {
      DeriveStarts();
      var dataSec := totSec - (rsvdSecCnt + numFats * fatSz32);
      assert dataSec == Geo().DataSectors();
      if dataSec <= 0 { return Err("Invalid data sector count"); }
      if partitionOffset + totSec > partitionLimit { return Err("Volume exceeds MBR partition"); }
      countOfClusters := dataSec / secPerClus;
      if countOfClusters > 0x0fff_ffed || (countOfClusters + 2) * 4 > fatSz32 * 512 {
        return Err("FAT capacity or cluster count invalid");
      }
      if !(rootClus >= 2 && rootClus < countOfClusters + 2) { return Err("Root cluster out of bounds"); }
      if countOfClusters < 65525 { return Err("Cluster count is less than FAT32 minimum 65525"); }
      return Ok(());
    }

    method DeriveStarts()
      modifies `fat1Start, `fat2Start, `firstDataSector
      ensures fat1Start == Geo().Fat1Start() && fat2Start == Geo().Fat2Start()
          && firstDataSector == Geo().FirstDataSector()
    {
      fat1Start := partitionOffset + rsvdSecCnt;
      fat2Start := fat1Start + fatSz32;
      firstDataSector := partitionOffset + rsvdSecCnt + numFats * fatSz32;
    }

    /** A sector of the first FAT, compared whole with its mirror when there is one. */
    method ReadMirrored(lba1: int, lba2: int) returns (r: Result<seq<byte>>)
      requires CacheValid()
      modifies `cache, `cacheOrder
      ensures CacheValid()
      ensures r.Ok? <==> Mirrored(card, numFats, lba1, lba2)
      ensures r.Ok? ==> r.value == card.Read(lba1) && |r.value| == SECTOR_BYTES
    {
      var fat1 := Meta(lba1);
      if fat1.Err? { return Err(fat1.message); }
      if numFats == 2 {
        var fat2 := Meta(lba2);
        if fat2.Err? { return Err(fat2.message); }
        if fat1.value != fat2.value { return Err("FAT mirror mismatch"); }
      }
      return fat1;
    }

    method VerifyCleanFat() returns (r: Result<()>)
      requires CacheValid()
      modifies `cache, `cacheOrder
      ensures CacheValid()
      ensures Derived() ==> (r.Ok? <==> CleanFat(card, Geo()))
    {
      var fat1 := ReadMirrored(fat1Start, fat2Start);
      if fat1.Err? { return Err(fat1.message); }
      var entry1 := U32(fat1.value, 4);
      if !Bit(entry1, 0x0800_0000) { return Err("Dirty FAT volume detected"); }
      if !Bit(entry1, 0x0400_0000) { return Err("FAT volume hard error detected"); }
      return Ok(());
    }

    method FatEntryOf(cluster: nat) returns (r: Result<nat>)
      requires CacheValid()
      modifies `cache, `cacheOrder
      ensures CacheValid()
      ensures Derived() ==> match FatEntry(card, Geo(), cluster) case Some(v) => r == Ok(v) case None => r.Err?
    {
      EntryInSector(cluster);
      hide CacheHolds, Mirrored, U32, Geometry.CountOfClusters, Geometry.FirstDataSector;
      if cluster < 2 || cluster >= countOfClusters + 2 { return Err("Cluster index out of valid range"); }
      var byteOffset := cluster * 4;
      var secIdx, intra := byteOffset / 512, byteOffset % 512;
      if secIdx >= fatSz32 { return Err("FAT access exceeds FAT size"); }
      var fat1 := ReadMirrored(fat1Start + secIdx, fat2Start + secIdx);
      if fat1.Err? { return Err(fat1.message); }
      return Ok(U32(fat1.value, intra) % 0x1000_0000);
    }

    /** Succeeds exactly when the volume is mounted and its root directory can be scanned; the answer
      * is the sorted logs in front of the end marker, and the log-named subdirectories are kept. */
    method ListBblFiles() returns (r: Result<seq<Entry>>)
      requires Valid()
      modifies `cache, `cacheOrder, `rootClusters, `bblSubdirectories, `listed
      ensures Valid()
      ensures r.Ok? <==> mounted && Listable(card, Geo())
      ensures r.Ok? ==> listed && Listing(card, Geo(), r.value, bblSubdirectories, rootClusters)
      ensures r.Err? ==> listed == old(listed) && rootClusters == old(rootClusters)
      ensures r.Err? ==> bblSubdirectories == old(bblSubdirectories)
    {
      hide Listing, Listed, SortBy, MountedAs, CacheHolds, Scan, UniqueNames, Listable, BflFiles, BflDirs,
           SoundGeometry;
      hide Readable, IsFat32Vbr, Derived;
      if !mounted { return Err("FAT32 volume is not mounted"); }
      MountedIsSound(card, Geo());
      ghost var chain, slots;
      var visited, scan;
      scan, visited, chain, slots := ScanRoot();
      if scan.Err? { return Err(scan.message); }
      ListingHolds(card, Geo(), chain, scan.value.scanned, slots);
      ListableWhen(card, Geo(), chain, scan.value.scanned, slots);
      KeepListing(visited, SortBy(scan.value.subdirs, Itself));
      r := Ok(SortBy(scan.value.found, EntryName));
    }

    method KeepListing(visited: set<nat>, subdirs: seq<string>)
      modifies `rootClusters, `bblSubdirectories, `listed
      ensures rootClusters == visited && bblSubdirectories == subdirs && listed
    {
      rootClusters := visited;
      bblSubdirectories := subdirs;
      listed := true;
    }

    /** The cluster loop of `listBblFiles`. Every round visits a new cluster, so it ends even on a
      * cyclic chain. */
    method ScanRoot() returns (r: Result<RootScan>, visited: set<nat>, ghost chain: seq<nat>, ghost slots: seq<DirSlot>)
      requires CacheValid() && Derived() && SoundGeometry(Geo(), card.Count())
      modifies `cache, `cacheOrder
      ensures CacheValid()
      ensures r.Err? ==> !Listable(card, Geo())
      ensures r.Ok? ==> Scan(card, Geo(), chain, r.value.scanned, slots)
      ensures r.Ok? ==> UniqueNames(slots) && visited == SetOf(chain)
      ensures r.Ok? ==> r.value.found == BflFiles(slots) && r.value.subdirs == BflDirs(slots)
    {
      hide SoundGeometry, Scanning, Scan, UniqueNames, Listable, Scannable, BflFiles, BflDirs;
      hide RootLinkOk, CacheHolds, FatEntry, Derived, Geometry.FirstDataSector, Geometry.CountOfClusters;
      ghost var g := Geo();
      NothingFound();
      ListableScans(card, g);
      visited, chain, slots := {}, [], [];
      AtRoot(card, g);
      hide SetOf, Clusters, AtCluster;
      var cur: nat := rootClus;
      var scan := RootScan(0, [], [], false);
      while true
        invariant CacheValid()
        invariant visited == SetOf(chain)
        invariant UniqueNames(slots) && scan.found == BflFiles(slots) && scan.subdirs == BflDirs(slots)
        invariant AtCluster(card, g, chain, scan.scanned, slots, cur)
        decreases Clusters(g) - visited
      {
        ClusterIsNeeded(card, g, chain, scan.scanned, slots, cur);
        if cur in visited { return Err("Cycle detected in root directory cluster chain"), visited, chain, slots; }
        visited := visited + {cur};
        var next := RootLink(cur);
        if next.Err? { return Err(next.message), visited, chain, slots; }
        ClusterOpens(card, g, chain, scan.scanned, slots, cur);
        chain := chain + [cur];
        r, slots := ScanCluster(cur, scan.scanned, scan.found, scan.subdirs, chain, slots);
        if r.Err? { return r, visited, chain, slots; }
        scan := r.value;
        if scan.end { break; }
        if next.value >= EOC {
          ChainEnds(card, g, chain, scan.scanned, slots);
          break;
        }
        AtNextCluster(card, g, chain, scan.scanned, slots, next.value);
        cur := next.value;
      }
      r := Ok(scan);
    }

    /** Succeeds exactly when the directory entry describes a file with a complete chain of the right
      * length, clear of the scanned root; the answer is then the file's sectors, in order. */
    method FileDataSectors(entry: Entry) returns (r: Result<seq<int>>)
      requires Valid()
      modifies `cache, `cacheOrder
      ensures Valid()
      ensures r.Ok? <==> listed && HasSectors(card, Geo(), rootClusters, entry.firstCluster, entry.size)
      ensures r.Ok? ==> FileSectors(card, Geo(), rootClusters, entry.firstCluster, entry.size, r.value)
    {
      hide MountedAs, Listed, CacheHolds, HasFileChain, FileSectors, HasSectors, SoundGeometry, Sectors, CeilDiv,
           FileChain;
      hide Derived, Readable, IsFat32Vbr;
      if !listed { return Err("Root directory has not been scanned"); }
      AllowedSize(card, Geo(), rootClusters, entry.firstCluster, entry.size);
      if entry.size == 0 { return Err("File is empty"); }
      if entry.size > MAX_FILE_BYTES { return Err("File size exceeds maximum 64 MiB limit"); }
      MountedIsSound(card, Geo());
      var clusterBytes := secPerClus * 512;
      var expected := CeilDiv(entry.size, clusterBytes);
      ChainCoversFile(secPerClus, entry.size, expected);
      FileSectorsIff(card, Geo(), rootClusters, entry.firstCluster, entry.size);
      var chain := WalkFile(entry.firstCluster, expected);
      if chain.Err? { return Err(chain.message); }
      ChainGivesSectors(card, Geo(), rootClusters, entry.firstCluster, entry.size, chain.value);
      ChainInVolume(card, Geo(), rootClusters, entry.firstCluster, chain.value);
      r := ExpandSectors(chain.value, CeilDiv(entry.size, 512));
    }

    /** The cluster loop of `fileDataSectors`. */
    method WalkFile(first: nat, expected: nat) returns (r: Result<seq<nat>>)
      requires CacheValid() && Derived() && SoundGeometry(Geo(), card.Count()) && expected > 0
      modifies `cache, `cacheOrder
      ensures CacheValid()
      ensures r.Ok? <==> HasFileChain(card, Geo(), rootClusters, first, expected)
      ensures r.Ok? ==> |r.value| == expected && FileChain(card, Geo(), rootClusters, first, r.value)
    {
      hide SoundGeometry, CacheHolds, FatEntry, AtLink, FileChain, HasFileChain, SetOf;
      ghost var g := Geo();
      assert countOfClusters == g.CountOfClusters();
      hide Derived, Geometry.FirstDataSector, Geometry.CountOfClusters;
      WalkStarts(card, g, rootClusters, first);
      var chain: seq<nat>, visited: set<nat>, cur: nat := [], {}, first;
      while true
        invariant CacheValid() && |chain| <= expected && visited == SetOf(chain)
        invariant AtLink(card, g, rootClusters, first, chain, cur)
        decreases expected - |chain|
      {
        StepIsNeeded(card, g, card.Count(), rootClusters, first, chain, cur, expected);
        if cur < 2 || cur >= countOfClusters + 2 { return Err("Cluster out of valid cluster range"); }
        if cur in visited { return Err("Cycle detected in file cluster chain"); }
        if cur in rootClusters { return Err("File overlaps root directory"); }
        WalkOn(card, g, rootClusters, first, chain, cur);
        visited := visited + {cur};
        chain := chain + [cur];
        if |chain| > expected { return Err("File cluster chain longer than allocated size"); }
        var next := FatEntryOf(cur);
        if next.Err? { return Err(next.message); }
        if next.value >= EOC {
          if |chain| < expected { return Err("File cluster chain ended prematurely"); }
          ChainFound(card, g, rootClusters, first, expected, chain);
          break;
        }
        cur := next.value;
      }
      r := Ok(chain);
    }

    /** The sector loop of `fileDataSectors`: refused when a needed sector is outside the volume or the
      * chain is too short. */
    method ExpandSectors(chain: seq<nat>, total: nat) returns (r: Result<seq<int>>)
      requires Derived()
      ensures r.Ok? <==>
                && total <= |Sectors(Geo(), chain)|
                && forall i :: 0 <= i < total ==> Sectors(Geo(), chain)[i] < Geo().VolumeEnd()
      ensures r.Ok? ==> r.value == Sectors(Geo(), chain)[..total]
    {
      hide Sectors;
      ghost var g := Geo();
      ghost var all := Sectors(g, chain);
      assert firstDataSector == g.FirstDataSector();
      hide Derived, Geometry.FirstDataSector, Geometry.CountOfClusters;
      NoSectors(g, chain);
      var sectors: seq<int> := [];
      var volumeEnd := partitionOffset + totSec;
      for k := 0 to |chain|
        invariant |Sectors(g, chain[..k])| <= |all|
        invariant sectors == all[..Min(total, |Sectors(g, chain[..k])|)]
        invariant forall i :: 0 <= i < |sectors| ==> all[i] < volumeEnd
      {
        var base := firstDataSector + (chain[k] - 2) * secPerClus;
        ghost var done := |Sectors(g, chain[..k])|;
        ClusterPart(g, chain, k);
        var s := 0;
        while s < secPerClus && |sectors| < total
          invariant 0 <= s <= secPerClus
          invariant sectors == all[..Min(total, done + s)]
          invariant forall i :: 0 <= i < |sectors| ==> all[i] < volumeEnd
        {
          assert all[done + s] == base + s;
          if base + s >= volumeEnd { return Err("Data sector out of volume bounds"); }
          sectors := sectors + [base + s];
          s := s + 1;
        }
      }
      if |sectors| != total { return Err("File sectors do not cover the directory size"); }
      return Ok(sectors);
    }

    /** The link out of a root directory cluster, refused when it is not a cluster or an end mark. */
    method RootLink(cur: nat) returns (r: Result<nat>)
      requires CacheValid() && Derived()
      modifies `cache, `cacheOrder
      ensures CacheValid()
      ensures r.Ok? <==> RootLinkOk(card, Geo(), cur)
      ensures r.Ok? ==> FatEntry(card, Geo(), cur) == Some(r.value)
    {
      hide FatEntry, CacheHolds;
      var next := FatEntryOf(cur);
      if next.Err? { return Err(next.message); }
      if next.value < EOC && !(next.value >= 2 && next.value < Min(countOfClusters + 2, 0x0fff_fff0)) {
        return Err("Invalid root chain link");
      }
      return next;
    }

    /** Scans one root directory cluster: `chain` ends with `cur`, `slots` is what the clusters
      * before it held. */
    method ScanCluster(cur: nat, scanned0: nat, found0: seq<Entry>, subdirs0: seq<string>,
                       ghost chain: seq<nat>, ghost slots0: seq<DirSlot>)
      returns (r: Result<RootScan>, ghost slots: seq<DirSlot>)
      requires CacheValid() && Derived() && SoundGeometry(Geo(), card.Count())
      requires chain != [] && chain[|chain| - 1] == cur && Scanning(card, Geo(), chain, scanned0, slots0)
      requires scanned0 == |Sectors(Geo(), chain[..|chain| - 1])|
      requires UniqueNames(slots0) && found0 == BflFiles(slots0) && subdirs0 == BflDirs(slots0)
      modifies `cache, `cacheOrder
      ensures CacheValid()
      ensures r.Ok? ==> UniqueNames(slots) && r.value.found == BflFiles(slots) && r.value.subdirs == BflDirs(slots)
      ensures r.Ok? && r.value.end ==> Scan(card, Geo(), chain, r.value.scanned, slots)
      ensures r.Ok? && !r.value.end ==> Scanning(card, Geo(), chain, r.value.scanned, slots)
                                        && r.value.scanned == |Sectors(Geo(), chain)|
      ensures r.Err? ==> !Listable(card, Geo())
    {
      hide SoundGeometry, Scanning, Scan, UniqueNames, BflFiles, BflDirs, Listable;
      ghost var g := Geo();
      var lba := firstDataSector + (cur - 2) * secPerClus;
      InRangeLast(card, g, chain, scanned0, slots0);
      var scanned: nat, s: nat, end := scanned0, 0, false;
      var found, subdirs := found0, subdirs0;
      slots := slots0;
      ClusterDone(card, g, chain, scanned0);
      while s < secPerClus && !end
        invariant s <= secPerClus && CacheValid()
        invariant UniqueNames(slots) && found == BflFiles(slots) && subdirs == BflDirs(slots)
        invariant end ==> Scan(card, g, chain, scanned, slots)
        invariant !end ==> scanned == scanned0 + s && Scanning(card, g, chain, scanned, slots)
        decreases secPerClus - s, !end
      {
        ClusterSector(card, g, chain, scanned0, s);
        var step;
        step, slots := ScanRootSector(lba + s, scanned, found, subdirs, chain, slots);
        if step.Err? { return step, slots; }
        scanned, found, subdirs, end := step.value.scanned, step.value.found, step.value.subdirs, step.value.end;
        s := s + 1;
      }
      r := Ok(RootScan(scanned, found, subdirs, end));
    }

    /** The body of the sector loop. */
    method ScanRootSector(lba: int, scanned0: nat, found: seq<Entry>, subdirs: seq<string>,
                          ghost chain: seq<nat>, ghost slots0: seq<DirSlot>)
      returns (r: Result<RootScan>, ghost slots: seq<DirSlot>)
      requires CacheValid() && SoundGeometry(Geo(), card.Count())
      requires Scanning(card, Geo(), chain, scanned0, slots0)
      requires scanned0 < |Sectors(Geo(), chain)| && lba == Sectors(Geo(), chain)[scanned0]
      requires UniqueNames(slots0) && found == BflFiles(slots0) && subdirs == BflDirs(slots0)
      modifies `cache, `cacheOrder
      ensures CacheValid()
      ensures r.Ok? ==> UniqueNames(slots) && r.value.found == BflFiles(slots) && r.value.subdirs == BflDirs(slots)
      ensures r.Ok? ==> r.value.scanned == scanned0 + 1
      ensures r.Ok? && r.value.end ==> Scan(card, Geo(), chain, scanned0 + 1, slots)
      ensures r.Ok? && !r.value.end ==> Scanning(card, Geo(), chain, scanned0 + 1, slots)
      ensures r.Err? ==> !Listable(card, Geo())
    {
      hide SoundGeometry, Scanning, Scan, UniqueNames, Listable, Scannable, Readable, BflFiles, BflDirs, CacheHolds;
      ghost var g := Geo();
      slots := slots0;
      NextSectorIsNeeded(card, g, chain, scanned0, slots0);
      ListableScans(card, g);
      var scanned := scanned0 + 1;
      if scanned > ROOT_SCAN_SECTORS { return Err("Root directory scan exceeded sectors limit"), slots; }
      var sec := Meta(lba);
      if sec.Err? { return Err(sec.message), slots; }
      ghost var kept;
      r, kept := ScanSector(sec.value, found, subdirs, slots0);
      assert SeenSlots(card, g, chain, scanned0, slots0, sec.value, kept);
      hide SeenSlots;
      slots := slots0 + SectorSlots(sec.value)[..kept];
      if r.Err? {
        RepeatedNameRefuses(card, g, chain, scanned0, slots0, sec.value, kept);
        return r, slots;
      }
      if r.value.end {
        SectorEnds(card, g, chain, scanned0, slots0, sec.value, kept);
      } else {
        assert SectorSlots(sec.value)[..16] == SectorSlots(sec.value);
        SectorPassed(card, g, chain, scanned0, slots0, sec.value);
      }
      r := Ok(r.value.(scanned := scanned));
    }
  }

  /** No sector of an accepted chain is outside the volume: that guard of the sector loop never fires. */
  lemma ChainInVolume(card: Card, g: Geometry, root: set<nat>, first: nat, chain: seq<nat>)
    requires SoundGeometry(g, card.Count()) && FileChain(card, g, root, first, chain)
    ensures forall i :: 0 <= i < |Sectors(g, chain)| ==> Sectors(g, chain)[i] < g.VolumeEnd()
  {
    forall i | 0 <= i < |Sectors(g, chain)| ensures Sectors(g, chain)[i] < g.VolumeEnd() {
      var _, _ := SectorOwner(g, card.Count(), chain, i);
    }
  }

  lemma FileSectorsIff(card: Card, g: Geometry, root: set<nat>, first: nat, size: nat)
    requires g.secPerClus > 0 && 1 <= size <= MAX_FILE_BYTES
    ensures HasSectors(card, g, root, first, size)
       <==> HasFileChain(card, g, root, first, CeilDiv(size, g.secPerClus * 512))
  {
    var n := CeilDiv(size, g.secPerClus * 512);
    if chain: seq<nat> :| |chain| == n && FileChain(card, g, root, first, chain) {
      ChainGivesSectors(card, g, root, first, size, chain);
    }
  }

  lemma ChainGivesSectors(card: Card, g: Geometry, root: set<nat>, first: nat, size: nat, chain: seq<nat>)
    requires g.secPerClus > 0 && 1 <= size <= MAX_FILE_BYTES
    requires FileChain(card, g, root, first, chain) && |chain| == CeilDiv(size, g.secPerClus * 512)
    ensures CeilDiv(size, 512) <= |Sectors(g, chain)|
    ensures FileSectors(card, g, root, first, size, Sectors(g, chain)[..CeilDiv(size, 512)])
    ensures HasSectors(card, g, root, first, size)
  {
    ChainCoversFile(g.secPerClus, size, |chain|);
    SectorsLength(g, chain);
    hide CeilDiv, Sectors, FileChain;
    assert FileHasChain(card, g, root, first, size, chain);
  }

  lemma AllowedSize(card: Card, g: Geometry, root: set<nat>, first: nat, size: nat)
    ensures HasSectors(card, g, root, first, size) ==> 1 <= size <= MAX_FILE_BYTES
  {
    hide FileChain;
  }

  lemma NothingFound()
    ensures UniqueNames([]) && BflFiles([]) == [] && BflDirs([]) == []
  {
  }

  lemma MountedIsSound(card: Card, g: Geometry)
    requires MountedAs(card, g)
    ensures SoundGeometry(g, card.Count()) && g.secPerClus > 0
  {
    var limit :| Mounts(card, g, limit);
    MountsIsSound(card, g, limit);
  }

  /** Sorting what a complete scan found gives the listing. */
  lemma ListingHolds(card: Card, g: Geometry, chain: seq<nat>, n: nat, slots: seq<DirSlot>)
    requires Scan(card, g, chain, n, slots) && UniqueNames(slots)
    ensures Listing(card, g, SortBy(BflFiles(slots), EntryName), SortBy(BflDirs(slots), Itself), SetOf(chain))
    ensures Listed(card, g, SortBy(BflDirs(slots), Itself), SetOf(chain))
  {
    hide Scan;
    UniqueFound(slots);
    SortByAscending(BflFiles(slots), EntryName);
    SortByAscending(BflDirs(slots), Itself);
    assert ListingOf(card, g, SortBy(BflFiles(slots), EntryName), SortBy(BflDirs(slots), Itself), SetOf(chain), chain,
                     n, slots);
  }

  lemma ListableWhen(card: Card, g: Geometry, chain: seq<nat>, n: nat, slots: seq<DirSlot>)
    requires Scan(card, g, chain, n, slots) && UniqueNames(slots)
    ensures Listable(card, g)
  {
  }

  lemma {:induction false} UniqueFound(slots: seq<DirSlot>)
    requires UniqueNames(slots)
    ensures forall i, j :: 0 <= i < j < |BflFiles(slots)| ==>
        EntryName(BflFiles(slots)[i]) != EntryName(BflFiles(slots)[j])
    ensures Distinct(BflDirs(slots))
  {
    if slots != [] {
      var front, last := slots[..|slots| - 1], slots[|slots| - 1];
      UniqueFound(front);
      assert slots == front + [last];
      UniqueAppend(front, last);
      SeenNames(front, NameOf(last));
    }
  }

  /** What the scan carries from sector to sector. */
  datatype RootScan = RootScan(scanned: nat, found: seq<Entry>, subdirs: seq<string>, end: bool)

  /** The sixteen slots of one directory sector: stops at an end marker, skips what is not a log,
    * refuses a log name met before. `kept` slots were looked at. */
  method ScanSector(sec: seq<byte>, found0: seq<Entry>, subdirs0: seq<string>, ghost before: seq<DirSlot>)
    returns (r: Result<RootScan>, ghost kept: nat)
    requires |sec| == SECTOR_BYTES
    requires UniqueNames(before) && found0 == BflFiles(before) && subdirs0 == BflDirs(before)
    ensures kept <= 16 && forall i :: 0 <= i < kept ==> !IsEnd(SectorSlots(sec)[i])
    ensures r.Ok? <==> UniqueNames(before + SectorSlots(sec)[..kept])
    ensures r.Ok? ==> r.value.found == BflFiles(before + SectorSlots(sec)[..kept])
    ensures r.Ok? ==> r.value.subdirs == BflDirs(before + SectorSlots(sec)[..kept])
    ensures r.Ok? ==> (r.value.end <==> kept < 16) && (kept < 16 ==> IsEnd(SectorSlots(sec)[kept]))
  {
    hide UniqueNames, BflFiles, BflDirs;
    var found, subdirs := found0, subdirs0;
    ghost var all := SectorSlots(sec);
    kept := 0;
    assert before + all[..0] == before;
    var e := 0;
    while e < 16
      invariant 0 <= e <= 16 && kept == e
      invariant forall i :: 0 <= i < kept ==> !IsEnd(all[i])
      invariant UniqueNames(before + all[..kept])
      invariant found == BflFiles(before + all[..kept]) && subdirs == BflDirs(before + all[..kept])
    {
      var slot: DirSlot := sec[e * 32..e * 32 + 32];
      assert slot == all[e];
      if slot[0] == 0x00 { return Ok(RootScan(0, found, subdirs, true)), kept; }
      assert before + all[..kept + 1] == before + all[..kept] + [slot];
      var step := ConsiderSlot(slot, found, subdirs, before + all[..kept]);
      kept := kept + 1;
      if step.Err? { return Err(step.message), kept; }
      found, subdirs := step.value.0, step.value.1;
      e := e + 1;
    }
    return Ok(RootScan(0, found, subdirs, false)), kept;
  }

  /** The body of the slot loop for a slot that is not the end marker. */
  method ConsiderSlot(slot: DirSlot, found: seq<Entry>, subdirs: seq<string>, ghost seen: seq<DirSlot>)
    returns (r: Result<(seq<Entry>, seq<string>)>)
    requires UniqueNames(seen) && found == BflFiles(seen) && subdirs == BflDirs(seen)
    ensures r.Ok? <==> UniqueNames(seen + [slot])
    ensures r.Ok? ==> r.value == (BflFiles(seen + [slot]), BflDirs(seen + [slot]))
  {
    BflAppend(seen, slot);
    UniqueAppend(seen, slot);
    if slot[0] == 0xe5 { return Ok((found, subdirs)); }
    if slot[11] == 0x0f || Bit(slot[11], 0x08) { return Ok((found, subdirs)); }
    var short := Short(slot);
    if !IsBblShort(short) { return Ok((found, subdirs)); }
    var name := DottedName(short);
    SeenNames(seen, name);
    if Has(found, name) || name in subdirs { return Err("Duplicate filename found in root directory"); }
    if Bit(slot[11], 0x10) { return Ok((found, subdirs + [name])); }
    var entry := Entry(name, U32(slot, 28), U16(slot, 20) * 0x1_0000 + U16(slot, 26));
    return Ok((found + [entry], subdirs));
  }

  lemma UniqueAppend(seen: seq<DirSlot>, x: DirSlot)
    requires UniqueNames(seen)
    ensures UniqueNames(seen + [x])
       <==> !(IsBfl(x) && exists k :: 0 <= k < |seen| && IsBfl(seen[k]) && NameOf(x) == NameOf(seen[k]))
  {
    var s := seen + [x];
    assert s[|seen|] == x && forall k :: 0 <= k < |seen| ==> s[k] == seen[k];
  }

  lemma PartitionUnique(card: Card, offset: nat, limit: nat, offset': nat, limit': nat)
    requires PartitionAt(card, offset, limit) && PartitionAt(card, offset', limit')
    ensures offset == offset' && limit == limit'
  {
    var sec0 := card.Read(0);
    if !IsFat32Vbr(sec0) {
      var i: nat :| SlotHolds(card, sec0, i, offset, limit);
      var j: nat :| SlotHolds(card, sec0, j, offset', limit');
      assert i == j;
    }
  }

  /** With the partition known, everything else about mounting is decided by its first sector. */
  predicate MountsAt(card: Card, offset: nat, limit: nat)
    requires |card.Read(offset)| == SECTOR_BYTES
  {
    var vbr := card.Read(offset);
    VolumeFits(vbr, Describe(vbr, offset), limit, card.Count()) && CleanFat(card, Describe(vbr, offset))
  }

  lemma MountableIff(card: Card, offset: nat, limit: nat)
    requires PartitionAt(card, offset, limit)
    ensures Readable(card, offset)
    ensures Mountable(card) <==> MountsAt(card, offset, limit)
    ensures MountsAt(card, offset, limit) ==> MountedAs(card, Describe(card.Read(offset), offset))
  {
    if Mountable(card) {
      var g, limit' :| Mounts(card, g, limit');
      SamePartition(card, offset, limit, g, limit');
    }
    if MountsAt(card, offset, limit) { MountsHere(card, offset, limit); }
  }

  lemma SamePartition(card: Card, offset: nat, limit: nat, g: Geometry, limit': nat)
    requires PartitionAt(card, offset, limit) && Mounts(card, g, limit')
    ensures |card.Read(offset)| == SECTOR_BYTES && MountsAt(card, offset, limit)
  {
    hide VolumeFits, CleanFat, OnlyFat32Slot, IsFat32Vbr;
    PartitionUnique(card, offset, limit, g.partitionOffset, limit');
  }

  lemma MountsHere(card: Card, offset: nat, limit: nat)
    requires PartitionAt(card, offset, limit) && |card.Read(offset)| == SECTOR_BYTES
    requires MountsAt(card, offset, limit)
    ensures Mountable(card) && MountedAs(card, Describe(card.Read(offset), offset))
  {
    hide VolumeFits, CleanFat, PartitionAt;
    var g := Describe(card.Read(offset), offset);
    assert Mounts(card, g, limit);
    assert MountedAs(card, g);
  }

  lemma MountNeedsPartition(card: Card)
    ensures Mountable(card) ==> Readable(card, 0) && exists offset, limit :: PartitionAt(card, offset, limit)
  {
    if g, limit :| Mounts(card, g, limit) {
      assert PartitionAt(card, g.partitionOffset, limit);
    }
  }

  lemma MountedOnce(card: Card, g: Geometry, h: Geometry)
    requires MountedAs(card, g) && MountedAs(card, h)
    ensures g == h
  {
    var limit :| Mounts(card, g, limit);
    var limit' :| Mounts(card, h, limit');
    MountIsUnique(card, g, h, limit, limit');
  }
}
