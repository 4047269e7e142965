/** What the rules of a FAT32 volume mean for the bytes of a card: which FAT words link, end or break a
  * chain, where clusters lie, which boot sectors mount, which directory slots are logs. Every bound
  * here is written out as a number. */
module FatOnDisk {
  import opened Bytes
  import opened Digits
  import opened FatVolume
  import opened FatChains
  import opened FatDirectory
  import opened NameOrder
  import opened FatRootReader

  // ---------------------------------------------------------------- multi-byte fields

  /** The number a row of bytes stands for, low byte first. */
  function LittleEndian(b: seq<byte>): nat {
    if b == [] then 0 else b[0] as nat + 256 * LittleEndian(b[1..])
  }

  lemma FieldsAreLittleEndian(b: seq<byte>, o: nat)
    requires o + 4 <= |b|
    ensures U16(b, o) == LittleEndian(b[o..o + 2]) && U32(b, o) == LittleEndian(b[o..o + 4])
  {
    TwoBytes(b, o);
    TwoBytes(b, o + 2);
    FourBytes(b[o..o + 4]);
    assert b[o..o + 4][..2] == b[o..o + 2] && b[o..o + 4][2..] == b[o + 2..o + 4];
  }

  lemma TwoBytes(b: seq<byte>, o: nat)
    requires o + 2 <= |b|
    ensures U16(b, o) == LittleEndian(b[o..o + 2])
  {
    var two := b[o..o + 2];
    assert two[1..][1..] == [];
    assert LittleEndian(two[1..]) == two[1] as nat;
  }

  lemma FourBytes(b: seq<byte>)
    requires |b| == 4
    ensures LittleEndian(b) == LittleEndian(b[..2]) + 0x1_0000 * LittleEndian(b[2..])
  {
    assert b[1..][1..] == b[2..] && b[..2][1..] == [b[1]] && [b[1]][1..] == [];
    assert LittleEndian(b) == b[0] as nat + 256 * LittleEndian(b[1..]);
    assert LittleEndian(b[1..]) == b[1] as nat + 256 * LittleEndian(b[2..]);
    assert LittleEndian([b[1]]) == b[1] as nat;
    assert LittleEndian(b[..2]) == b[0] as nat + 256 * (b[1] as nat);
  }

  // ---------------------------------------------------------------- FAT words

  /** The sector of the first FAT that holds the word of cluster `c`. */
  function WordSector(g: Geometry, c: nat): nat { g.partitionOffset + g.rsvdSecCnt + c / 128 }

  /** The low 28 bits of the word stored for cluster `c`, from its four bytes. */
  function StoredLink(card: Card, g: Geometry, c: nat): nat
    requires Readable(card, WordSector(g, c))
  {
    var sec, o := card.Read(WordSector(g, c)), 4 * (c % 128);
    sec[o] as nat + 0x100 * (sec[o + 1] as nat) + 0x1_0000 * (sec[o + 2] as nat)
    + 0x100_0000 * (sec[o + 3] as nat % 16)
  }

  /** The word of `c` can be read, and its mirror agrees if there is one. */
  predicate WordReadable(card: Card, g: Geometry, c: nat) {
    && Readable(card, WordSector(g, c))
    && (g.numFats == 2 ==>
          && Readable(card, WordSector(g, c) + g.fatSz32)
          && card.Read(WordSector(g, c)) == card.Read(WordSector(g, c) + g.fatSz32))
  }

  /** The link of a cluster is the low 28 bits of its word; it is read exactly from agreeing mirrors. */
  lemma LinkOnDisk(card: Card, g: Geometry, c: nat)
    requires SoundGeometry(g, card.Count()) && g.InRange(c)
    ensures FatEntry(card, g, c) == if WordReadable(card, g, c) then Some(StoredLink(card, g, c)) else None
  {
    hide Geometry.CountOfClusters, U32, IsClusterSize;
    EntryInSector(c);
    FatSlotInFat(g, card.Count(), c);
    if WordReadable(card, g, c) { LowBits28(card.Read(WordSector(g, c)), 4 * (c % 128)); }
  }

  lemma LowBits28(sec: seq<byte>, o: nat)
    requires o + 4 <= |sec|
    ensures U32(sec, o) % 0x1000_0000
         == sec[o] as nat + 0x100 * (sec[o + 1] as nat) + 0x1_0000 * (sec[o + 2] as nat)
            + 0x100_0000 * (sec[o + 3] as nat % 16)
  {
    var low := sec[o] as nat + 0x100 * (sec[o + 1] as nat) + 0x1_0000 * (sec[o + 2] as nat);
    var top := sec[o + 3] as nat;
    assert U32(sec, o) == low + 0x100_0000 * (top % 16) + 0x1000_0000 * (top / 16);
  }

  // ---------------------------------------------------------------- files

  /** A file of at most one cluster has a sector list exactly when the word of its cluster is an end
    * mark, 0x0FFFFFF8 or above; the sectors are then the first of that cluster. */
  lemma OneClusterFile(card: Card, g: Geometry, root: set<nat>, c: nat, size: nat)
    requires SoundGeometry(g, card.Count()) && g.InRange(c) && c !in root && 1 <= size <= g.secPerClus * 512
    requires WordReadable(card, g, c)
    ensures HasSectors(card, g, root, c, size) <==> 0x0fff_fff8 <= StoredLink(card, g, c)
    ensures CeilDiv(size, 512) <= g.secPerClus
    ensures 0x0fff_fff8 <= StoredLink(card, g, c) ==>
              FileSectors(card, g, root, c, size, ClusterSectors(g, c)[..CeilDiv(size, 512)])
  {
    hide FatEntry, StoredLink, Geometry.CountOfClusters, HasSectors, CeilDiv;
    LinkOnDisk(card, g, c);
    OneCluster(g.secPerClus, size);
    if 0x0fff_fff8 <= StoredLink(card, g, c) {
      assert FileChain(card, g, root, c, [c]);
      assert Sectors(g, [c]) == ClusterSectors(g, c) by { assert [c][..0] == []; }
      hide Sectors, FileSectors;
      ChainGivesSectors(card, g, root, c, size, [c]);
    }
    if HasSectors(card, g, root, c, size) {
      var chain := ChainOf(card, g, root, c, size);
      FirstLink(card, g, root, c, chain);
    }
  }

  lemma ChainOf(card: Card, g: Geometry, root: set<nat>, first: nat, size: nat) returns (chain: seq<nat>)
    requires HasSectors(card, g, root, first, size)
    ensures FileHasChain(card, g, root, first, size, chain)
  {
    hide FileHasChain;
    var sectors :| FileSectors(card, g, root, first, size, sectors);
    chain :| FileHasChain(card, g, root, first, size, chain) && |Sectors(g, chain)| >= CeilDiv(size, 512)
             && sectors == Sectors(g, chain)[..CeilDiv(size, 512)];
  }

  /** The link out of the first cluster of a chain ends it or is a cluster. */
  lemma FirstLink(card: Card, g: Geometry, root: set<nat>, first: nat, chain: seq<nat>)
    requires FileChain(card, g, root, first, chain)
    ensures FatEntry(card, g, first).Some?
    ensures if |chain| == 1 then 0x0fff_fff8 <= FatEntry(card, g, first).value
            else g.InRange(FatEntry(card, g, first).value)
  {
    hide FatEntry;
    if |chain| > 1 { assert FatEntry(card, g, chain[0]) == Some(chain[1]); }
  }

  lemma OneCluster(spc: nat, size: nat)
    requires IsClusterSize(spc) && 1 <= size <= spc * 512
    ensures CeilDiv(size, spc * 512) == 1 && CeilDiv(size, 512) <= spc && size <= MAX_FILE_BYTES
  {
    ChainCoversFile(spc, size, CeilDiv(size, spc * 512));
    CeilDivBounds(size, spc * 512);
    if CeilDiv(size, spc * 512) >= 2 { MulMono(2, CeilDiv(size, spc * 512), spc * 512); }
  }

  /** A first cluster whose word is neither an end mark nor a cluster number has no file of any size. */
  lemma BrokenLinkRefuses(card: Card, g: Geometry, root: set<nat>, c: nat, size: nat)
    requires SoundGeometry(g, card.Count()) && g.InRange(c) && WordReadable(card, g, c)
    requires StoredLink(card, g, c) < 0x0fff_fff8 && !g.InRange(StoredLink(card, g, c))
    ensures !HasSectors(card, g, root, c, size)
  {
    hide FatEntry, StoredLink, Geometry.CountOfClusters, HasSectors;
    LinkOnDisk(card, g, c);
    if HasSectors(card, g, root, c, size) {
      var chain := ChainOf(card, g, root, c, size);
      FirstLink(card, g, root, c, chain);
    }
  }

  /** The size limit is 64 MiB, and it is the only limit beside the chain. */
  lemma SizeLimit(card: Card, g: Geometry, root: set<nat>, first: nat, size: nat)
    requires g.secPerClus > 0
    ensures HasSectors(card, g, root, first, size) <==>
              1 <= size <= 67_108_864 && HasFileChain(card, g, root, first, CeilDiv(size, g.secPerClus * 512))
  {
    hide HasSectors, HasFileChain;
    AllowedSize(card, g, root, first, size);
    if 1 <= size <= 67_108_864 { FileSectorsIff(card, g, root, first, size); }
  }

  // ---------------------------------------------------------------- the root directory

  predicate ClusterReadable(card: Card, g: Geometry, c: nat) {
    forall lba :: g.ClusterLba(c) <= lba < g.ClusterLba(c) + g.secPerClus ==> Readable(card, lba)
  }

  /** A readable root cluster whose word is 0x0FFFFFF8 or above can be scanned; one whose word is
    * neither that nor a cluster number cannot. */
  lemma OneClusterRoot(card: Card, g: Geometry)
    requires SoundGeometry(g, card.Count()) && WordReadable(card, g, g.rootClus)
    ensures 0x0fff_fff8 <= StoredLink(card, g, g.rootClus) && ClusterReadable(card, g, g.rootClus) ==>
              Scannable(card, g)
    ensures StoredLink(card, g, g.rootClus) < 0x0fff_fff8 && !g.InRange(StoredLink(card, g, g.rootClus)) ==>
              !Scannable(card, g)
  {
    hide FatEntry, StoredLink, Geometry.CountOfClusters, Readable, Scannable, Scanning;
    LinkOnDisk(card, g, g.rootClus);
    OpenRoot(card, g);
    if 0x0fff_fff8 <= StoredLink(card, g, g.rootClus) && ClusterReadable(card, g, g.rootClus) {
      ScanFrom(card, g, 0, []);
    }
  }

  /** A scan of the one root cluster goes on to an end. */
  lemma {:induction false} ScanFrom(card: Card, g: Geometry, n: nat, slots: seq<DirSlot>)
    requires g.secPerClus <= 128 && n <= g.secPerClus && ClusterReadable(card, g, g.rootClus)
    requires Scanning(card, g, [g.rootClus], n, slots) && EndMarked(card, g, [g.rootClus])
    ensures Scannable(card, g)
    decreases g.secPerClus - n
  {
    hide FatEntry, Readable, Scanning, EndMarked, Scan, IsEnd, SectorSlots, SeenSlots, Sectors;
    RootSectors(g);
    var chain := [g.rootClus];
    if n == g.secPerClus {
      ChainEnds(card, g, chain, n, slots);
    } else {
      var sec, j := SeesSector(card, g, n, slots);
      if j < 16 {
        SectorEnds(card, g, chain, n, slots, sec, j);
      } else {
        SectorPassed(card, g, chain, n, slots, sec);
        ScanFrom(card, g, n + 1, slots + SectorSlots(sec));
      }
    }
  }

  /** The next sector, and how many of its slots come before an end marker. */
  lemma SeesSector(card: Card, g: Geometry, n: nat, slots: seq<DirSlot>) returns (sec: seq<byte>, j: nat)
    requires n < g.secPerClus && ClusterReadable(card, g, g.rootClus)
    requires Scanning(card, g, [g.rootClus], n, slots)
    ensures |sec| == SECTOR_BYTES && j <= 16 && SeenSlots(card, g, [g.rootClus], n, slots, sec, j)
    ensures j < 16 ==> IsEnd(SectorSlots(sec)[j])
  {
    hide Scanning, IsEnd, SectorSlots, Sectors;
    RootSectors(g);
    sec := card.Read(Sectors(g, [g.rootClus])[n]);
    assert Readable(card, Sectors(g, [g.rootClus])[n]);
    j := FirstEnd(sec);
  }

  lemma RootSectors(g: Geometry)
    ensures Sectors(g, [g.rootClus]) == ClusterSectors(g, g.rootClus)
    ensures |Sectors(g, [g.rootClus])| == g.secPerClus
    ensures forall s :: 0 <= s < g.secPerClus ==> Sectors(g, [g.rootClus])[s] == g.ClusterLba(g.rootClus) + s
  {
    assert [g.rootClus][..0] == [];
    assert Sectors(g, []) == [];
  }

  /** How many slots of a sector come before the first end marker. */
  lemma FirstEnd(sec: seq<byte>) returns (j: nat)
    requires |sec| == SECTOR_BYTES
    ensures j <= 16 && (forall i :: 0 <= i < j ==> !IsEnd(SectorSlots(sec)[i]))
    ensures j < 16 ==> IsEnd(SectorSlots(sec)[j])
  {
    hide IsEnd, SectorSlots;
    j := 0;
    while j < 16 && !IsEnd(SectorSlots(sec)[j])
      invariant j <= 16 && forall i :: 0 <= i < j ==> !IsEnd(SectorSlots(sec)[i])
    {
      j := j + 1;
    }
  }

  /** A complete scan ends in front of the first slot that starts with a zero byte, or at the end of the
    * chain when there is none; slots that start with 0xE5 are passed over. It reads at most 4096
    * sectors. */
  lemma ScanEndsAtZero(card: Card, g: Geometry, chain: seq<nat>, n: nat, slots: seq<DirSlot>)
    requires Scan(card, g, chain, n, slots)
    ensures n <= 4096 && n <= |Sectors(g, chain)| && AllReadable(card, Sectors(g, chain)[..n])
    ensures forall i :: 0 <= i < |slots| ==> slots[i][0] != 0
    ensures var all := SlotsOf(card, Sectors(g, chain)[..n]);
      slots <= all && (if |slots| < |all| then all[|slots|][0] == 0 else n == |Sectors(g, chain)|)
  {
    hide Sectors, SlotsOf, FatEntry, Readable;
  }

  /** The scan goes on from a cluster exactly when its link is 0x0FFFFFF8 or above or a cluster number. */
  lemma RootLinkOnDisk(card: Card, g: Geometry, c: nat)
    requires SoundGeometry(g, card.Count()) && g.InRange(c)
    ensures RootLinkOk(card, g, c) <==>
              && WordReadable(card, g, c)
              && (0x0fff_fff8 <= StoredLink(card, g, c) || g.InRange(StoredLink(card, g, c)))
  {
    LinkOnDisk(card, g, c);
    hide FatEntry, StoredLink, WordReadable, Geometry.CountOfClusters;
  }

  /** An end-marked root whose sectors can all be read and hold no end marker is scanned whole exactly when it
    * has at most 4096 sectors. */
  lemma RootLimit(card: Card, g: Geometry, chain: seq<nat>)
    requires SoundGeometry(g, card.Count()) && RootPath(card, g, chain) && EndMarked(card, g, chain)
    requires AllReadable(card, Sectors(g, chain))
    requires forall i :: 0 <= i < 16 * |Sectors(g, chain)| ==> !IsEnd(SlotsOf(card, Sectors(g, chain))[i])
    ensures Scannable(card, g) <==> |Sectors(g, chain)| <= 4096
  {
    hide Sectors, SlotsOf, FatEntry, Readable, SoundGeometry, RootLinkOk, IsEnd;
    var all := Sectors(g, chain);
    assert all[..|all|] == all;
    if |all| <= 4096 {
      assert Scan(card, g, chain, |all|, SlotsOf(card, all));
    }
    if done, n, slots :| Scan(card, g, done, n, slots) {
      ScanIsWhole(card, g, chain, done, n, slots);
    }
  }

  lemma ScanIsWhole(card: Card, g: Geometry, chain: seq<nat>, done: seq<nat>, n: nat, slots: seq<DirSlot>)
    requires SoundGeometry(g, card.Count()) && RootPath(card, g, chain) && EndMarked(card, g, chain)
    requires AllReadable(card, Sectors(g, chain)) && Scan(card, g, done, n, slots)
    requires forall i :: 0 <= i < 16 * |Sectors(g, chain)| ==> !IsEnd(SlotsOf(card, Sectors(g, chain))[i])
    ensures n == |Sectors(g, chain)| && n <= 4096
  {
    hide Sectors, SlotsOf, FatEntry, Readable, SoundGeometry, RootLinkOk, IsEnd;
    var all, some := Sectors(g, chain), Sectors(g, done);
    assert all[..|all|] == all;
    EndMarkedIsLongest(card, g, card.Count(), g.rootClus, chain, done);
    ChainPrefix(card, g, done, chain);
    SlotsAgree(card, some, all, n, |all|);
    assert |slots| == 16 * n;
    EndMarkedIsLongest(card, g, card.Count(), g.rootClus, done, chain);
    assert done == chain;
  }

  // ---------------------------------------------------------------- where things lie

  /** The places a mounted volume's boot sector describes: the FATs follow the reserved sectors, the
    * clusters follow the FATs and are numbered from 2. */
  lemma LayoutOnDisk(card: Card, g: Geometry, limit: nat, c: nat)
    requires Mounts(card, g, limit)
    ensures var vbr, start := card.Read(g.partitionOffset), g.partitionOffset;
      var reserved, fats, fatSize, perCluster := U16(vbr, 14), vbr[16], U32(vbr, 36), vbr[13];
      && g.Fat1Start() == start + reserved && g.Fat2Start() == start + reserved + fatSize
      && g.VolumeEnd() == start + U32(vbr, 32) && g.rootClus == U32(vbr, 44)
      && g.CountOfClusters() == (U32(vbr, 32) - reserved - fats * fatSize) / perCluster
      && g.ClusterLba(c) == start + reserved + fats * fatSize + (c - 2) * perCluster
  {
    hide U16, U32, CleanFat, PartitionAt, IsClusterSize;
  }

  /** Which boot sectors are accepted, field by field. */
  lemma MountRules(vbr: seq<byte>, offset: nat, limit: nat, cardSectors: nat)
    requires |vbr| == SECTOR_BYTES
    ensures var perCluster: nat, reserved, fats: nat, fatSize := vbr[13], U16(vbr, 14), vbr[16], U32(vbr, 36);
      var root, total := U32(vbr, 44), U32(vbr, 32);
      var data := total - reserved - fats * fatSize;
      VolumeFits(vbr, Describe(vbr, offset), limit, cardSectors) <==>
        && U16(vbr, 11) == 512 && perCluster in {1, 2, 4, 8, 16, 32, 64, 128}
        && reserved > 0 && 1 <= fats <= 2 && fatSize > 0
        && U16(vbr, 17) == 0 && U16(vbr, 19) == 0 && U16(vbr, 22) == 0 && U16(vbr, 42) == 0 && vbr[40] < 128
        && offset + total <= cardSectors && offset + total <= limit
        && 65525 * perCluster <= data < 0x0fff_ffee * perCluster
        && data / perCluster + 2 <= 128 * fatSize && 2 <= root < data / perCluster + 2
  {
    hide U16, U32;
    MirrorBit(vbr);
    var perCluster: nat := vbr[13];
    var fats: nat := vbr[16];
    var data := U32(vbr, 32) - U16(vbr, 14) - fats * U32(vbr, 36);
    if perCluster > 0 && data >= 0 { QuotientBounds(data, perCluster); }
  }

  lemma MirrorBit(vbr: seq<byte>)
    requires |vbr| == SECTOR_BYTES
    ensures Bit(U16(vbr, 40), 0x80) <==> vbr[40] >= 128
  {
    var lo, hi := vbr[40] as nat, vbr[41] as nat;
    assert U16(vbr, 40) == 128 * (2 * hi + lo / 128) + lo % 128;
  }

  lemma QuotientBounds(a: nat, k: nat)
    requires k > 0
    ensures 65525 <= a / k <==> 65525 * k <= a
    ensures a / k <= 0x0fff_ffed <==> a < 0x0fff_ffee * k
  {
    DivModSplit(a, k);
    var q := a / k;
    if q >= 65525 { MulMono(65525, q, k); } else { MulMono(q + 1, 65525, k); Distribute(q, 1, k); }
    if q >= 0x0fff_ffee { MulMono(0x0fff_ffee, q, k); } else { MulMono(q + 1, 0x0fff_ffee, k); Distribute(q, 1, k); }
  }

  /** What a boot sector must say to be taken for FAT32, byte by byte. */
  lemma BootSectorOnDisk(sec: seq<byte>)
    requires |sec| == 512
    ensures IsFat32Vbr(sec) <==>
              && sec[510] == 0x55 && sec[511] == 0xaa && LittleEndian(sec[11..13]) == 512
              && sec[13] in {1, 2, 4, 8, 16, 32, 64, 128} && LittleEndian(sec[14..16]) > 0 && 1 <= sec[16] <= 2
              && LittleEndian(sec[17..19]) == LittleEndian(sec[22..24]) == 0 && LittleEndian(sec[36..40]) > 0
  {
    hide LittleEndian, U16, U32;
    FieldsAreLittleEndian(sec, 11);
    FieldsAreLittleEndian(sec, 14);
    FieldsAreLittleEndian(sec, 17);
    FieldsAreLittleEndian(sec, 22);
    FieldsAreLittleEndian(sec, 36);
  }

  /** Slot `i` of an MBR holds a FAT32 partition, and no other slot does, nor is there a GPT mark. */
  predicate OneFat32Type(sec0: seq<byte>, i: nat)
    requires |sec0| == 512
  {
    && i < 4 && sec0[450 + 16 * i] in {0x0b, 0x0c}
    && forall j: nat :: j < 4 && j != i ==> sec0[450 + 16 * j] !in {0x0b, 0x0c, 0xee}
  }

  /** Which partition is found on a card whose first sector is not itself a boot sector. */
  lemma PartitionOnDisk(card: Card, offset: nat, limit: nat)
    requires Readable(card, 0) && !IsFat32Vbr(card.Read(0))
    ensures var sec0 := card.Read(0);
      PartitionAt(card, offset, limit) <==>
        && sec0[510] == 0x55 && sec0[511] == 0xaa
        && (exists i: nat :: OneFat32Type(sec0, i)
                          && offset == LittleEndian(sec0[454 + 16 * i..458 + 16 * i])
                          && limit == offset + LittleEndian(sec0[458 + 16 * i..462 + 16 * i]))
        && 0 < offset < limit <= |card.content| && |card.content[offset]| == 512
        && IsFat32Vbr(card.content[offset])
  {
    hide LittleEndian, U32, IsFat32Vbr;
    var sec0 := card.Read(0);
    forall i: nat | i < 4
      ensures OneFat32Type(sec0, i) <==> OnlyFat32Slot(sec0, i)
      ensures U32(sec0, 446 + i * 16 + 8) == LittleEndian(sec0[454 + 16 * i..458 + 16 * i])
      ensures U32(sec0, 446 + i * 16 + 12) == LittleEndian(sec0[458 + 16 * i..462 + 16 * i])
    {
      SlotTypes(sec0, i);
      FieldsAreLittleEndian(sec0, 446 + i * 16 + 8);
      FieldsAreLittleEndian(sec0, 446 + i * 16 + 12);
    }
    if i: nat :| SlotHolds(card, sec0, i, offset, limit) { assert OneFat32Type(sec0, i); }
    if i: nat :| OneFat32Type(sec0, i) && offset == LittleEndian(sec0[454 + 16 * i..458 + 16 * i])
                 && limit == offset + LittleEndian(sec0[458 + 16 * i..462 + 16 * i])
                 && 0 < offset < limit <= card.Count()
    {
      assert SlotHolds(card, sec0, i, offset, limit);
    }
  }

  lemma SlotTypes(sec0: seq<byte>, i: nat)
    requires |sec0| == 512 && i < 4
    ensures OneFat32Type(sec0, i) <==> OnlyFat32Slot(sec0, i)
  {
    assert forall j: nat :: j < 4 ==> MbrType(sec0, j) == sec0[450 + 16 * j];
    if OneFat32Type(sec0, i) {
      forall j: nat | j < 4 ensures MbrType(sec0, j) != 0xee && (IsFat32Slot(sec0, j) ==> j == i) {
        assert sec0[450 + 16 * j] == MbrType(sec0, j);
      }
    }
    if OnlyFat32Slot(sec0, i) {
      forall j: nat | j < 4 && j != i ensures sec0[450 + 16 * j] !in {0x0b, 0x0c, 0xee} {
        assert sec0[450 + 16 * j] == MbrType(sec0, j) && !IsFat32Slot(sec0, j);
      }
    }
  }

  /** The clean-shutdown and no-error marks are bits 3 and 2 of the eighth byte of the FAT. */
  lemma CleanOnDisk(card: Card, g: Geometry)
    requires Mirrored(card, g.numFats, g.Fat1Start(), g.Fat2Start())
    ensures var mark := card.Read(g.Fat1Start())[7];
      CleanFat(card, g) <==> mark / 8 % 2 == 1 && mark / 4 % 2 == 1
  {
    var sec := card.Read(g.Fat1Start());
    TopByte(sec, 4);
  }

  lemma TopByte(sec: seq<byte>, o: nat)
    requires o + 4 <= |sec|
    ensures U32(sec, o) / 0x0800_0000 == sec[o + 3] as nat / 8 && U32(sec, o) / 0x0400_0000 == sec[o + 3] as nat / 4
  {
    var low := sec[o] as nat + 0x100 * (sec[o + 1] as nat) + 0x1_0000 * (sec[o + 2] as nat);
    var top := sec[o + 3] as nat;
    assert U32(sec, o) == low + 0x100_0000 * top && low < 0x100_0000;
  }

  // ---------------------------------------------------------------- directory slots

  /** The name bytes of a log: BFL, five digits, BBL. */
  predicate LogBytes(slot: DirSlot) {
    && slot[0] == 0x42 && slot[1] == 0x46 && slot[2] == 0x4c
    && (forall i :: 3 <= i < 8 ==> 0x30 <= slot[i] <= 0x39)
    && slot[8] == 0x42 && slot[9] == 0x42 && slot[10] == 0x4c
  }

  /** Which slots are logs and which of them subdirectories, and what a log's slot says. */
  lemma SlotOnDisk(slot: DirSlot)
    ensures IsBfl(slot) <==> LogBytes(slot) && slot[11] != 0x0f && slot[11] / 8 % 2 == 0
    ensures IsSubdirectory(slot) <==> slot[11] / 16 % 2 == 1
    ensures EntryOf(slot).size == LittleEndian(slot[28..32])
    ensures EntryOf(slot).firstCluster == LittleEndian(slot[26..28]) + 0x1_0000 * LittleEndian(slot[20..22])
    ensures |NameOf(slot)| == 12 && NameOf(slot)[8] == '.'
    ensures forall i :: 0 <= i < 8 ==> NameOf(slot)[i] == slot[i] as char
    ensures forall i :: 9 <= i < 12 ==> NameOf(slot)[i] == slot[i - 1] as char
  {
    NameOnDisk(slot);
    hide IsBblShort, U16, U32, LittleEndian, LogBytes, Short;
    FieldsAreLittleEndian(slot, 20);
    FieldsAreLittleEndian(slot, 26);
    FieldsAreLittleEndian(slot, 28);
  }

  lemma NameOnDisk(slot: DirSlot)
    ensures IsBblShort(Short(slot)) <==> LogBytes(slot)
    ensures LogBytes(slot) ==> slot[0] != 0xe5
    ensures |NameOf(slot)| == 12 && NameOf(slot)[8] == '.'
    ensures forall i :: 0 <= i < 8 ==> NameOf(slot)[i] == slot[i] as char
    ensures forall i :: 9 <= i < 12 ==> NameOf(slot)[i] == slot[i - 1] as char
  {
    var s := Short(slot);
    assert s[..3] == "BFL" <==> s[0] == 'B' && s[1] == 'F' && s[2] == 'L' by {
      assert s[..3] == [s[0], s[1], s[2]];
    }
    assert s[8..] == "BBL" <==> s[8] == 'B' && s[9] == 'B' && s[10] == 'L' by {
      assert s[8..] == [s[8], s[9], s[10]];
    }
    assert forall i :: 3 <= i < 8 ==> (IsDigit(s[i]) <==> 0x30 <= slot[i] <= 0x39);
  }

  // ---------------------------------------------------------------- the order of a listing

  /** Digit texts of one length are ordered as strings exactly as they are as numbers. */
  lemma {:induction false} DigitsInOrder(a: string, b: string)
    requires |a| == |b| && AllDigits(a) && AllDigits(b)
    ensures Before(a, b) <==> NumberOf(a) < NumberOf(b)
  {
    if a != "" {
      DigitsInOrder(a[1..], b[1..]);
      FirstDigit(a);
      FirstDigit(b);
      var p := Tens(|a| - 1);
      var x, y := (a[0] - '0') as nat, (b[0] - '0') as nat;
      if x < y { MulMono(x + 1, y, p); Distribute(x, 1, p); }
      if y < x { MulMono(y + 1, x, p); Distribute(y, 1, p); }
    }
  }

  function Tens(n: nat): nat { if n == 0 then 1 else 10 * Tens(n - 1) }

  lemma {:induction false} FirstDigit(s: string)
    requires s != "" && AllDigits(s)
    ensures NumberOf(s) == (s[0] - '0') as nat * Tens(|s| - 1) + NumberOf(s[1..])
    ensures NumberOf(s[1..]) < Tens(|s| - 1)
  {
    if |s| == 1 {
      assert s[..0] == "" && s[1..] == "";
    } else {
      var front, last := s[..|s| - 1], (s[|s| - 1] - '0') as nat;
      FirstDigit(front);
      assert s[1..][..|s| - 2] == front[1..];
      NumberSteps(s);
      NumberSteps(s[1..]);
      hide NumberOf, Tens;
      TensTimes((s[0] - '0') as nat, |s| - 1);
    }
  }

  lemma NumberSteps(s: string)
    requires s != "" && AllDigits(s)
    ensures NumberOf(s) == 10 * NumberOf(s[..|s| - 1]) + (s[|s| - 1] - '0') as nat && s[|s| - 1] <= '9'
  {
  }

  lemma TensTimes(x: nat, n: nat)
    requires n > 0
    ensures Tens(n) == 10 * Tens(n - 1) && x * Tens(n) == 10 * (x * Tens(n - 1))
  {
    var p := Tens(n - 1);
    assert x * (10 * p) == 10 * (x * p);
  }

  /** The five-digit number of a log name `BFLddddd.BBL`. */
  function LogNumber(name: string): nat
    requires |name| == 12 && AllDigits(name[3..8])
  {
    NumberOf(name[3..8])
  }

  predicate LogName(name: string) { |name| == 12 && name[..3] == "BFL" && AllDigits(name[3..8]) && name[8..] == ".BBL" }

  lemma LogsInOrder(a: string, b: string)
    requires LogName(a) && LogName(b)
    ensures Before(a, b) <==> LogNumber(a) < LogNumber(b)
  {
    DigitsInOrder(a[3..8], b[3..8]);
    assert a == "BFL" + a[3..8] + ".BBL" && b == "BFL" + b[3..8] + ".BBL";
    SamePrefix("BFL", a[3..8] + ".BBL", b[3..8] + ".BBL");
    SameEnd(a[3..8], b[3..8], ".BBL");
    assert "BFL" + (a[3..8] + ".BBL") == a && "BFL" + (b[3..8] + ".BBL") == b;
  }

  lemma {:induction false} SamePrefix(p: string, a: string, b: string)
    ensures Before(p + a, p + b) <==> Before(a, b)
  {
    if p == "" {
      assert p + a == a && p + b == b;
    } else {
      SamePrefix(p[1..], a, b);
      assert (p + a)[1..] == p[1..] + a && (p + b)[1..] == p[1..] + b;
    }
  }

  lemma {:induction false} SameEnd(a: string, b: string, end: string)
    requires |a| == |b|
    ensures Before(a + end, b + end) <==> Before(a, b)
  {
    if a == "" {
      assert a + end == end && b + end == end;
      BeforeTotal(end, end);
    } else {
      SameEnd(a[1..], b[1..], end);
      assert (a + end)[1..] == a[1..] + end && (b + end)[1..] == b[1..] + end;
    }
  }

  /** The logs of a listing come in the order of their numbers. */
  lemma ListingByNumber(card: Card, g: Geometry, files: seq<Entry>, subdirs: seq<string>, root: set<nat>,
                        i: nat, j: nat)
    requires Listing(card, g, files, subdirs, root) && i < j < |files|
    ensures LogName(files[i].name) && LogName(files[j].name)
    ensures LogNumber(files[i].name) < LogNumber(files[j].name)
  {
    hide Scan, LogName, Before;
    var chain, n, slots :| ListingOf(card, g, files, subdirs, root, chain, n, slots);
    ListedIsLog(files, slots, i);
    ListedIsLog(files, slots, j);
    LogsInOrder(files[i].name, files[j].name);
  }

  lemma ListedIsLog(files: seq<Entry>, slots: seq<DirSlot>, i: nat)
    requires multiset(files) == multiset(BflFiles(slots)) && i < |files|
    ensures LogName(files[i].name)
  {
    hide IsBfl, IsSubdirectory, EntryOf, BflFiles, LogName;
    assert files[i] in multiset(files);
    assert files[i] in BflFiles(slots);
    FilesComeFromSlots(slots, files[i]);
    var k :| 0 <= k < |slots| && IsBfl(slots[k]) && files[i] == EntryOf(slots[k]);
    EntryIsLog(slots[k]);
  }

  lemma EntryIsLog(slot: DirSlot)
    requires IsBfl(slot)
    ensures LogName(EntryOf(slot).name)
  {
    hide IsBblShort, LogName, Short;
    DottedIsLog(Short(slot));
  }

  lemma DottedIsLog(short: string)
    requires IsBblShort(short)
    ensures LogName(DottedName(short))
  {
    var name := DottedName(short);
    assert name[..3] == short[..3] && name[3..8] == short[3..8];
    assert name[8..] == "." + short[8..];
  }
}
