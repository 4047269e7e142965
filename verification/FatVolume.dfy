/** What a FAT32 volume on a card *is*: the mountable geometry, the mirrored FAT, cluster chains.
  * Nothing here is an algorithm; the readers in FatRootReader and BlackboxReader are proved
  * against these predicates. */
module FatVolume {
  import opened Bytes

  /** A card that does not change while it is read. A sector read that throws or comes back short
    * is a sequence whose length is not 512. */
  datatype Card = Card(content: seq<seq<byte>>)
  {
    function Count(): nat { |content| }

    function Read(lba: int): seq<byte> {
      if 0 <= lba < |content| then content[lba] else []
    }
  }

  const MAX_FILE_BYTES: nat := 64 * 1024 * 1024
  const ROOT_SCAN_SECTORS: nat := 4096
  const EOC: nat := 0x0fff_fff8

  predicate Readable(card: Card, lba: int) {
    0 <= lba < card.Count() && |card.Read(lba)| == SECTOR_BYTES
  }

  /** The decoded BIOS parameter block; derived quantities are functions of it. */
  datatype Geometry = Geometry(
    partitionOffset: nat, secPerClus: nat, rsvdSecCnt: nat, numFats: nat,
    fatSz32: nat, rootClus: nat, totSec: nat)
  {
    function Fat1Start(): nat { partitionOffset + rsvdSecCnt }

    function Fat2Start(): nat { Fat1Start() + fatSz32 }

    function FirstDataSector(): nat { partitionOffset + rsvdSecCnt + numFats * fatSz32 }

    function DataSectors(): int { totSec - (rsvdSecCnt + numFats * fatSz32) }

    function CountOfClusters(): nat {
      if secPerClus == 0 || DataSectors() <= 0 then 0 else DataSectors() / secPerClus
    }

    predicate InRange(cluster: int) { 2 <= cluster < CountOfClusters() + 2 }

    function ClusterLba(cluster: int): int { FirstDataSector() + (cluster - 2) * secPerClus }

    function VolumeEnd(): nat { partitionOffset + totSec }
  }

  // ---------------------------------------------------------------- boot sectors

  predicate Signed(sec: seq<byte>)
    requires |sec| == SECTOR_BYTES
  {
    sec[510] == 0x55 && sec[511] == 0xaa
  }

  predicate IsFat32Vbr(sec: seq<byte>) {
    && |sec| == SECTOR_BYTES
    && Signed(sec)
    && U16(sec, 11) == 512
    && IsClusterSize(sec[13])
    && U16(sec, 14) != 0
    && (sec[16] == 1 || sec[16] == 2)
    && U16(sec, 17) == 0
    && U16(sec, 22) == 0
    && U32(sec, 36) != 0
  }

  function MbrType(sec0: seq<byte>, i: nat): byte
    requires |sec0| == SECTOR_BYTES && i < 4
  {
    sec0[446 + i * 16 + 4]
  }

  predicate IsFat32Slot(sec0: seq<byte>, i: nat)
    requires |sec0| == SECTOR_BYTES && i < 4
  {
    MbrType(sec0, i) == 0x0b || MbrType(sec0, i) == 0x0c
  }

  /** Partition slot `i` is the one FAT32 partition of a non-GPT master boot record. */
  predicate OnlyFat32Slot(sec0: seq<byte>, i: nat)
    requires |sec0| == SECTOR_BYTES
  {
    && i < 4
    && IsFat32Slot(sec0, i)
    && (forall j: nat :: j < 4 ==> MbrType(sec0, j) != 0xee)
    && (forall j: nat :: j < 4 && IsFat32Slot(sec0, j) ==> j == i)
  }

  predicate SlotHolds(card: Card, sec0: seq<byte>, i: nat, offset: nat, limit: nat)
    requires |sec0| == SECTOR_BYTES
  {
    && OnlyFat32Slot(sec0, i)
    && offset == U32(sec0, 446 + i * 16 + 8)
    && limit == offset + U32(sec0, 446 + i * 16 + 12)
    && 0 < offset < limit <= card.Count()
  }

  /** The volume starts at `offset` and may use sectors below `limit`: the whole card when sector 0
    * is itself a FAT32 boot sector, otherwise the only FAT32 partition. */
  ghost predicate PartitionAt(card: Card, offset: nat, limit: nat) {
    && Readable(card, 0)
    && var sec0 := card.Read(0);
       if IsFat32Vbr(sec0) then offset == 0 && limit == card.Count()
       else
         && Signed(sec0)
         && (exists i: nat :: SlotHolds(card, sec0, i, offset, limit))
         && Readable(card, offset)
         && IsFat32Vbr(card.Read(offset))
  }

  function Describe(vbr: seq<byte>, offset: nat): Geometry
    requires |vbr| == SECTOR_BYTES
  {
    Geometry(offset, vbr[13], U16(vbr, 14), vbr[16], U32(vbr, 36), U32(vbr, 44), U32(vbr, 32))
  }

  /** The rules a boot sector's fields have to meet by themselves. */
  predicate FieldsOk(vbr: seq<byte>, g: Geometry, cardSectors: nat)
    requires |vbr| == SECTOR_BYTES
  {
    FormatOk(vbr, g.secPerClus, g.rsvdSecCnt, g.numFats) && SizesOk(vbr, g, cardSectors)
  }

  predicate IsClusterSize(n: nat) { n in {1, 2, 4, 8, 16, 32, 64, 128} }

  predicate FormatOk(vbr: seq<byte>, secPerClus: nat, rsvdSecCnt: nat, numFats: nat)
    requires |vbr| == SECTOR_BYTES
  {
    && U16(vbr, 11) == 512
    && IsClusterSize(secPerClus)
    && rsvdSecCnt != 0
    && (numFats == 1 || numFats == 2)
    && U16(vbr, 17) == 0
    && U16(vbr, 19) == 0
    && U16(vbr, 22) == 0
  }

  predicate SizesOk(vbr: seq<byte>, g: Geometry, cardSectors: nat)
    requires |vbr| == SECTOR_BYTES
  {
    && g.totSec != 0
    && g.VolumeEnd() <= cardSectors
    && g.fatSz32 != 0
    && !Bit(U16(vbr, 40), 0x80)
    && U16(vbr, 42) == 0
    && g.rootClus >= 2
  }

  /** The layout they describe: room for data, a FAT large enough for every cluster, the root among
    * the clusters, and at least the FAT32 minimum of them. */
  predicate LayoutFits(g: Geometry, limit: nat) {
    && g.VolumeEnd() <= limit
    && g.DataSectors() > 0
    && 65525 <= g.CountOfClusters() <= 0x0fff_ffed
    && (g.CountOfClusters() + 2) * 4 <= g.fatSz32 * 512
    && g.InRange(g.rootClus)
  }

  predicate VolumeFits(vbr: seq<byte>, g: Geometry, limit: nat, cardSectors: nat)
    requires |vbr| == SECTOR_BYTES
  {
    FieldsOk(vbr, g, cardSectors) && LayoutFits(g, limit)
  }

  /** A FAT sector can be read and, with two FATs, its mirror can be read and holds the same. */
  predicate Mirrored(card: Card, numFats: nat, fat1: int, fat2: int) {
    && Readable(card, fat1)
    && (numFats == 2 ==> Readable(card, fat2) && card.Read(fat1) == card.Read(fat2))
  }

  /** The first FAT sector says the volume was unmounted cleanly and saw no hard error. */
  predicate CleanFat(card: Card, g: Geometry) {
    && Mirrored(card, g.numFats, g.Fat1Start(), g.Fat2Start())
    && Bit(U32(card.Read(g.Fat1Start()), 4), 0x0800_0000)
    && Bit(U32(card.Read(g.Fat1Start()), 4), 0x0400_0000)
  }

  ghost predicate Mounts(card: Card, g: Geometry, limit: nat) {
    && PartitionAt(card, g.partitionOffset, limit)
    && g == Describe(card.Read(g.partitionOffset), g.partitionOffset)
    && VolumeFits(card.Read(g.partitionOffset), g, limit, card.Count())
    && CleanFat(card, g)
  }

  /** The geometric half of `Mounts`, all that the later proofs use. */
  predicate SoundGeometry(g: Geometry, cardSectors: nat) {
    && IsClusterSize(g.secPerClus)
    && g.rsvdSecCnt != 0
    && (g.numFats == 1 || g.numFats == 2)
    && g.VolumeEnd() <= cardSectors
    && g.DataSectors() > 0
    && 65525 <= g.CountOfClusters() <= 0x0fff_ffed
    && (g.CountOfClusters() + 2) * 4 <= g.fatSz32 * 512
    && g.InRange(g.rootClus)
  }

  /** A card has at most one mountable geometry, so "the" geometry is well defined. */
  lemma MountIsUnique(card: Card, g: Geometry, h: Geometry, limit: nat, limit': nat)
    requires Mounts(card, g, limit) && Mounts(card, h, limit')
    ensures g == h && limit == limit'
  {
    var sec0 := card.Read(0);
    if !IsFat32Vbr(sec0) {
      var i: nat :| SlotHolds(card, sec0, i, g.partitionOffset, limit);
      var j: nat :| SlotHolds(card, sec0, j, h.partitionOffset, limit');
      assert i == j;
    }
  }

  // ---------------------------------------------------------------- the FAT

  /** The link stored for `cluster`, if both mirrors can be read and agree. */
  function FatEntry(card: Card, g: Geometry, cluster: nat): Option<nat> {
    var index, intra := cluster * 4 / 512, cluster * 4 % 512;
    if !g.InRange(cluster) || index >= g.fatSz32
       || !Mirrored(card, g.numFats, g.Fat1Start() + index, g.Fat2Start() + index) then None
    else Some(U32(card.Read(g.Fat1Start() + index), intra) % 0x1000_0000)
  }

  /** A FAT entry does not cross a sector boundary. */
  lemma EntryInSector(c: nat)
    ensures c * 4 % 512 == 4 * (c % 128) <= 508 && c * 4 / 512 == c / 128
  {
    var q, r := c / 128, c % 128;
    assert c == 128 * q + r;
    assert c * 4 == 512 * q + 4 * r;
  }

  /** Clusters joined by FAT links, starting at `first`. */
  ghost predicate Path(card: Card, g: Geometry, first: nat, chain: seq<nat>) {
    && |chain| > 0
    && chain[0] == first
    && (forall i :: 0 <= i < |chain| ==> g.InRange(chain[i]))
    && (forall i :: 0 <= i < |chain| - 1 ==> FatEntry(card, g, chain[i]) == Some(chain[i + 1]))
  }

  ghost predicate EndMarked(card: Card, g: Geometry, chain: seq<nat>)
    requires |chain| > 0
  {
    var e := FatEntry(card, g, chain[|chain| - 1]);
    e.Some? && e.value >= EOC
  }

  /** The chain of a stored file: complete, and clear of the scanned root directory clusters. */
  ghost predicate FileChain(card: Card, g: Geometry, root: set<nat>, first: nat, chain: seq<nat>) {
    && Path(card, g, first, chain)
    && Distinct(chain)
    && EndMarked(card, g, chain)
    && SetOf(chain) !! root
  }

  /** The sectors of a chain in file order. */
  function Sectors(g: Geometry, chain: seq<nat>): seq<int> {
    if chain == [] then []
    else Sectors(g, chain[..|chain| - 1]) + ClusterSectors(g, chain[|chain| - 1])
  }

  function ClusterSectors(g: Geometry, cluster: nat): (s: seq<int>)
    ensures |s| == g.secPerClus
  {
    seq(g.secPerClus, s requires 0 <= s < g.secPerClus => g.ClusterLba(cluster) + s)
  }

  /** What reading a file of `size` bytes from `first` amounts to: the whole chain is validated,
    * and the sectors are the first ceil(size / 512) of it. */
  ghost predicate FileSectors(card: Card, g: Geometry, root: set<nat>, first: nat, size: nat, sectors: seq<int>) {
    exists chain :: FileHasChain(card, g, root, first, size, chain)
                 && |Sectors(g, chain)| >= CeilDiv(size, 512)
                 && sectors == Sectors(g, chain)[..CeilDiv(size, 512)]
  }

  ghost predicate FileHasChain(card: Card, g: Geometry, root: set<nat>, first: nat, size: nat, chain: seq<nat>) {
    && 1 <= size <= MAX_FILE_BYTES
    && g.secPerClus > 0
    && FileChain(card, g, root, first, chain)
    && |chain| == CeilDiv(size, g.secPerClus * 512)
  }

  /** Reading the sectors one after the other. */
  function ReadAll(card: Card, sectors: seq<int>): seq<byte> {
    if sectors == [] then []
    else ReadAll(card, sectors[..|sectors| - 1]) + card.Read(sectors[|sectors| - 1])
  }

  // ---------------------------------------------------------------- geometry lemmas

  /** The clusters tile the data area: whole, inside the volume, after every FAT. */
  lemma ClusterInVolume(g: Geometry, cardSectors: nat, c: nat)
    requires SoundGeometry(g, cardSectors) && g.InRange(c)
    ensures g.FirstDataSector() <= g.ClusterLba(c)
    ensures g.ClusterLba(c) + g.secPerClus <= g.VolumeEnd() <= cardSectors
    ensures c < 0x0fff_fff0
  {
    var n, spc := g.CountOfClusters(), g.secPerClus;
    assert n * spc <= g.DataSectors();
    assert (c - 2) * spc + spc == (c - 1) * spc <= n * spc by { MulMono(c - 1, n, spc); }
    MulMono(0, c - 2, spc);
  }

  lemma MulMono(a: int, b: int, k: nat)
    requires a <= b
    ensures a * k <= b * k
  {
  }

  /** Different clusters own disjoint sector ranges. */
  lemma ClustersDisjoint(g: Geometry, c: nat, d: nat, s: nat, t: nat)
    requires c != d && s < g.secPerClus && t < g.secPerClus
    ensures g.ClusterLba(c) + s != g.ClusterLba(d) + t
  {
    if c < d { MulMono(c - 2 + 1, d - 2, g.secPerClus); } else { MulMono(d - 2 + 1, c - 2, g.secPerClus); }
  }

  /** Every FAT slot lies inside one sector of its own FAT, before the data area and on the card, so
    * the range test on the FAT sector index never refuses a cluster the reader accepts. */
  lemma FatSlotInFat(g: Geometry, cardSectors: nat, c: nat)
    requires SoundGeometry(g, cardSectors) && g.InRange(c)
    ensures c * 4 / 512 < g.fatSz32
    ensures c * 4 % 512 + 4 <= 512
    ensures g.Fat1Start() + c * 4 / 512 < g.Fat1Start() + g.fatSz32 <= g.FirstDataSector() <= cardSectors
    ensures g.numFats == 2 ==> g.Fat2Start() + c * 4 / 512 < g.FirstDataSector()
  {
    assert c * 4 < g.fatSz32 * 512;
    assert g.numFats * g.fatSz32 == if g.numFats == 1 then g.fatSz32 else g.fatSz32 + g.fatSz32;
  }

  lemma MountsIsSound(card: Card, g: Geometry, limit: nat)
    requires Mounts(card, g, limit)
    ensures SoundGeometry(g, card.Count())
  {
  }
}
