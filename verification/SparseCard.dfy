/** sd-read-mock.ts: the sparse card image builder. */
module SparseCard {
  import opened Bytes
  import opened FatVolume
  import opened FatChains
  import opened FatDirectory
  import opened CardImage

  const END_OF_CHAIN: nat := 0x0fff_ffff

  // ---------------------------------------------------------------- what an image holds

  type Image = map<int, seq<byte>>

  function At(m: Image, lba: int): seq<byte> {
    if lba in m then m[lba] else Blank()
  }

  predicate Whole(m: Image) {
    forall lba :: lba in m ==> |m[lba]| == SECTOR_BYTES
  }

  function FatWord(m: Image, start: nat, c: nat): nat
    requires Whole(m)
  {
    U32(At(m, start + c * 4 / 512), c * 4 % 512)
  }

  /** Both FATs store `fat` and mirror each other. */
  ghost predicate FatHolds(m: Image, g: Geometry, fat: map<nat, nat>) {
    && Whole(m)
    && (forall c :: c in fat ==> c * 4 / 512 < g.fatSz32 && FatWord(m, g.Fat1Start(), c) == fat[c])
    && (g.numFats == 2 ==> forall i: nat :: i < g.fatSz32 ==> MirrorAt(m, g, i))
  }

  predicate MirrorAt(m: Image, g: Geometry, i: nat) {
    At(m, g.Fat1Start() + i) == At(m, g.Fat2Start() + i)
  }

  predicate InFat(g: Geometry, lba: int) {
    g.Fat1Start() <= lba < g.FirstDataSector()
  }

  /** The link that follows cluster number `i` of a chain. */
  function LinkAfter(chain: seq<nat>, i: nat): nat {
    if i + 1 < |chain| then chain[i + 1] else END_OF_CHAIN
  }

  /** The first `n` links of a chain are stored. */
  predicate ChainLinks(fat: map<nat, nat>, chain: seq<nat>, n: nat)
    requires n <= |chain|
  {
    forall i :: 0 <= i < n ==> chain[i] in fat && fat[chain[i]] == LinkAfter(chain, i)
  }

  /** Only FAT sectors differ. */
  ghost predicate OnlyFatChanged(m: Image, m': Image, g: Geometry) {
    forall lba :: !InFat(g, lba) ==> At(m', lba) == At(m, lba)
  }

  lemma SlotsApart(off: nat, other: nat)
    requires off % 4 == 0 && other % 4 == 0 && off != other
    ensures other + 4 <= off || off + 4 <= other
  {
  }

  /** `put32` changes one FAT slot and no other. */
  lemma PutWord(sec: seq<byte>, off: nat, v: nat, other: nat)
    requires |sec| == SECTOR_BYTES && off % 4 == 0 && other % 4 == 0 && off < 512 && other < 512 && v < 0x1_0000_0000
    ensures off + 4 <= 512 && other + 4 <= 512
    ensures U32(Overlay(sec, off, Le32(v)), other) == if other == off then v else U32(sec, other)
  {
    hide Le32;
    var r := Overlay(sec, off, Le32(v));
    if other == off {
      assert r[off..off + 4] == Le32(v);
      Le32Decodes(r, off, v);
    } else {
      SlotsApart(off, other);
    }
  }

  lemma SlotSplit(c: nat, d: nat)
    ensures c * 4 % 512 % 4 == 0 && c * 4 % 512 <= 508
    ensures c != d && c * 4 / 512 == d * 4 / 512 ==> c * 4 % 512 != d * 4 % 512
  {
  }

  /** The image after storing `v` for cluster `c` in the FAT that starts at `start`. */
  function WithWord(m: Image, start: nat, c: nat, v: nat): (r: Image)
    requires Whole(m)
    ensures Whole(r)
  {
    SlotSplit(c, c);
    m[start + c * 4 / 512 := Overlay(At(m, start + c * 4 / 512), c * 4 % 512, Le32(v))]
  }

  lemma WithWordReads(m: Image, start: nat, c: nat, v: nat, d: nat)
    requires Whole(m) && v < 0x1_0000_0000
    ensures FatWord(WithWord(m, start, c, v), start, d) == if d == c then v else FatWord(m, start, d)
  {
    SlotSplit(c, d);
    SlotSplit(d, c);
    if c * 4 / 512 == d * 4 / 512 {
      PutWord(At(m, start + c * 4 / 512), c * 4 % 512, v, d * 4 % 512);
    }
  }

  lemma StoreFirst(m: Image, g: Geometry, fat: map<nat, nat>, c: nat, v: nat)
    requires FatHolds(m, g, fat) && g.numFats == 1 && c * 4 / 512 < g.fatSz32 && v < 0x1_0000_0000
    ensures FatHolds(WithWord(m, g.Fat1Start(), c, v), g, fat[c := v])
    ensures OnlyFatChanged(m, WithWord(m, g.Fat1Start(), c, v), g)
  {
    hide FatWord, Overlay, Le32;
    forall d | d in fat[c := v] ensures FatWord(WithWord(m, g.Fat1Start(), c, v), g.Fat1Start(), d) == fat[c := v][d] {
      WithWordReads(m, g.Fat1Start(), c, v, d);
    }
  }

  lemma StoreBoth(m: Image, g: Geometry, fat: map<nat, nat>, c: nat, v: nat)
    requires FatHolds(m, g, fat) && g.numFats == 2 && c * 4 / 512 < g.fatSz32 && v < 0x1_0000_0000
    ensures FatHolds(WithWord(WithWord(m, g.Fat1Start(), c, v), g.Fat2Start(), c, v), g, fat[c := v])
    ensures OnlyFatChanged(m, WithWord(WithWord(m, g.Fat1Start(), c, v), g.Fat2Start(), c, v), g)
  {
    hide FatWord, MirrorAt, WithWord, Whole;
    var m1 := WithWord(m, g.Fat1Start(), c, v);
    var m2 := WithWord(m1, g.Fat2Start(), c, v);
    forall d | d in fat[c := v] ensures d * 4 / 512 < g.fatSz32 && FatWord(m2, g.Fat1Start(), d) == fat[c := v][d] {
      assert d * 4 / 512 < g.fatSz32;
      WithWordReads(m, g.Fat1Start(), c, v, d);
      SecondFatApart(m1, g, c, v, d);
    }
    forall i: nat | i < g.fatSz32 ensures MirrorAt(m2, g, i) {
      assert MirrorAt(m, g, i);
      BothStoreAlike(m, g, c, v, i);
    }
    OnlyTwoSectorsChange(m, g, c, v);
  }

  /** A word stored in the second FAT leaves the first FAT alone. */
  lemma SecondFatApart(m: Image, g: Geometry, c: nat, v: nat, d: nat)
    requires Whole(m) && d * 4 / 512 < g.fatSz32
    ensures FatWord(WithWord(m, g.Fat2Start(), c, v), g.Fat1Start(), d) == FatWord(m, g.Fat1Start(), d)
  {
    hide Overlay, Le32, U32;
  }

  lemma BothStoreAlike(m: Image, g: Geometry, c: nat, v: nat, i: nat)
    requires Whole(m) && MirrorAt(m, g, i) && MirrorAt(m, g, c * 4 / 512) && i < g.fatSz32 && c * 4 / 512 < g.fatSz32
    ensures MirrorAt(WithWord(WithWord(m, g.Fat1Start(), c, v), g.Fat2Start(), c, v), g, i)
  {
    hide Overlay, Le32;
  }

  lemma OnlyTwoSectorsChange(m: Image, g: Geometry, c: nat, v: nat)
    requires Whole(m) && g.numFats == 2 && c * 4 / 512 < g.fatSz32
    ensures OnlyFatChanged(m, WithWord(WithWord(m, g.Fat1Start(), c, v), g.Fat2Start(), c, v), g)
  {
    hide Overlay, Le32;
  }

  // ---------------------------------------------------------------- the builder

  /** `payload[i] = (i * 13 + 37 + idx * 101) & 0xff` */
  function Payload(size: nat, idx: nat): (p: seq<byte>)
    ensures |p| == size
  {
    seq(size, i requires 0 <= i < size => (i * 13 + 37 + idx * 101) % 0x100)
  }

  /** The first byte of the first file is 37; each byte is 13 above the one before it and 101 above the same
    * byte of the file before, modulo 256. */
  lemma PayloadPattern(size: nat, idx: nat, i: nat)
    requires i < size
    ensures i == 0 && idx == 0 ==> Payload(size, idx)[i] == 37
    ensures i > 0 ==> Rises(Payload(size, idx)[i - 1], Payload(size, idx)[i], 13)
    ensures idx > 0 ==> Rises(Payload(size, idx - 1)[i], Payload(size, idx)[i], 101)
  {
    hide Rises;
    if i > 0 { StepRises((i - 1) * 13 + 37 + idx * 101, 13); }
    if idx > 0 { StepRises(i * 13 + 37 + (idx - 1) * 101, 101); }
  }

  predicate Rises(a: byte, b: byte, step: nat) {
    b as int == a as int + step || b as int == a as int + step - 256
  }

  lemma StepRises(v: nat, step: nat)
    requires step < 256
    ensures Rises(v % 0x100, (v + step) % 0x100, step)
  {
  }

  /** The bytes sector `i` of a file holds, with zeros after the end of the file. */
  function Piece(payload: seq<byte>, i: nat): (b: seq<byte>)
    requires i * 512 < |payload|
    ensures |b| == SECTOR_BYTES
  {
    if (i + 1) * 512 <= |payload| then payload[i * 512..(i + 1) * 512]
    else payload[i * 512..] + Zeros(SECTOR_BYTES - (|payload| - i * 512))
  }

  /** The root directory's first sector lists the files, and the rest of the root cluster is blank. */
  ghost predicate RootHolds(m: Image, o: Options, n: nat)
    requires n <= |o.files| <= 16 && forall i :: 0 <= i < n ==> IsBblName(o.files[i].name) && |o.files[i].clusters| > 0
  {
    var lba := o.Geo().ClusterLba(o.rootClus);
    && |At(m, lba)| == SECTOR_BYTES
    && (forall k :: 0 <= k < n ==> SectorSlots(At(m, lba))[k] == EntryBytes(o.files[k]))
    && (forall k :: n <= k < 16 ==> SectorSlots(At(m, lba))[k] == Zeros(32))
    && (forall l :: lba < l < lba + o.secPerClus ==> At(m, l) == Blank())
  }

  /** The first `n` of a list of sectors hold the payload, the rest are blank. */
  ghost predicate Written(m: Image, s: seq<int>, payload: seq<byte>, n: nat) {
    && Whole(m) && n <= |s| && n <= CeilDiv(|payload|, 512)
    && (forall i: nat :: i < n ==> i * 512 < |payload| && At(m, s[i]) == Piece(payload, i))
    && (forall i :: n <= i < |s| ==> At(m, s[i]) == Blank())
  }

  ghost predicate OnlyChanged(m: Image, m': Image, s: seq<int>) {
    forall lba :: lba !in s ==> At(m', lba) == At(m, lba)
  }

  /** `sector(lba).set(part)` on a blank sector stores a piece of the payload. */
  lemma StorePiece(m: Image, s: seq<int>, payload: seq<byte>, n: nat, part: seq<byte>)
    requires Written(m, s, payload, n) && Distinct(s) && n < |s| && n * 512 < |payload|
    requires part == payload[n * 512..Min((n + 1) * 512, |payload|)]
    ensures |At(m, s[n])| == SECTOR_BYTES
    ensures Written(m[s[n] := Overlay(At(m, s[n]), 0, part)], s, payload, n + 1)
    ensures OnlyChanged(m, m[s[n] := Overlay(At(m, s[n]), 0, part)], s)
  {
    hide CeilDiv, Overlay, Piece, Blank;
    PieceIs(payload, n, part);
    SectorCount(|payload|, n);
    var m' := m[s[n] := Overlay(At(m, s[n]), 0, part)];
    assert forall lba :: lba != s[n] ==> At(m', lba) == At(m, lba);
  }

  lemma PieceIs(payload: seq<byte>, n: nat, part: seq<byte>)
    requires n * 512 < |payload| && part == payload[n * 512..Min((n + 1) * 512, |payload|)]
    ensures |part| <= 512 && Overlay(Blank(), 0, part) == Piece(payload, n)
  {
  }

  /** Cutting a chunk out of the payload and a part out of the chunk. */
  lemma PartOfChunk(payload: seq<byte>, done: nat, spc: nat, s: nat)
    requires spc > 0 && s < spc
    ensures var chunk := payload[Min(done * 512, |payload|)..Min((done + spc) * 512, |payload|)];
      && (s * 512 < |chunk| <==> (done + s) * 512 < |payload|)
      && (s * 512 < |chunk| ==>
            chunk[s * 512..Min(s * 512 + 512, |chunk|)]
              == payload[(done + s) * 512..Min((done + s + 1) * 512, |payload|)])
  {
    var lo, hi := Min(done * 512, |payload|), Min((done + spc) * 512, |payload|);
    var chunk := payload[lo..hi];
    if s * 512 < |chunk| {
      var end := Min(s * 512 + 512, |chunk|);
      SliceOfSlice(payload, lo, hi, s * 512, end);
    }
  }

  lemma SliceOfSlice(a: seq<byte>, lo: nat, hi: nat, i: nat, j: nat)
    requires lo <= hi <= |a| && i <= j <= hi - lo
    ensures a[lo..hi][i..j] == a[lo + i..lo + j]
  {
    var part, whole := a[lo..hi][i..j], a[lo + i..lo + j];
    assert forall k :: 0 <= k < j - i ==> part[k] == a[lo..hi][i + k] == a[lo + i + k] == whole[k];
  }

  // ---------------------------------------------------------------- regions of the card

  function FileSectorList(o: Options, j: nat): seq<int>
    requires j < |o.files|
  {
    Sectors(o.Geo(), o.files[j].clusters)
  }

  /** The sectors of the files are clear of the boot sectors, the FATs, the root cluster and each other. */
  lemma FileRegion(o: Options, j: nat, i: nat)
    requires GoodOptions(o) && j < |o.files| && i < |FileSectorList(o, j)|
    ensures var lba := FileSectorList(o, j)[i];
      && lba != 0 && lba != o.PartitionOffset() && !InFat(o.Geo(), lba) && !InCluster(o.Geo(), o.rootClus, lba)
  {
    var g, chain := o.Geo(), o.files[j].clusters;
    var c, s := SectorOwner(g, o.cardSectors, chain, i);
    OneOwner(g, c, s, o.rootClus);
  }

  lemma FilesApart(o: Options, j: nat, k: nat, i: nat)
    requires GoodOptions(o) && j < |o.files| && k < |o.files| && j != k && i < |FileSectorList(o, j)|
    ensures FileSectorList(o, j)[i] !in FileSectorList(o, k)
  {
    var g, p, q := o.Geo(), o.files[j].clusters, o.files[k].clusters;
    var c, s := SectorOwner(g, o.cardSectors, p, i);
    forall i' | 0 <= i' < |Sectors(g, q)| ensures Sectors(g, q)[i'] != g.ClusterLba(c) + s {
      var c', s' := SectorOwner(g, o.cardSectors, q, i');
      assert c in SetOf(p) && c' in SetOf(q);
      ClustersDisjoint(g, c, c', s, s');
    }
  }

  /** The root cluster is clear of the boot sectors and the FATs. */
  lemma RootRegion(o: Options, lba: int)
    requires GoodOptions(o) && InCluster(o.Geo(), o.rootClus, lba)
    ensures lba != 0 && lba != o.PartitionOffset() && !InFat(o.Geo(), lba)
  {
    ClusterInVolume(o.Geo(), o.cardSectors, o.rootClus);
  }

  // ---------------------------------------------------------------- building, step by step

  predicate BootHolds(m: Image, o: Options) {
    (o.mbr ==> At(m, 0) == MbrSector(o)) && At(m, o.PartitionOffset()) == VbrSector(o)
  }

  /** The two entries before the first cluster: the media byte under ones, and a clean volume. */
  predicate Reserved(fat: map<nat, nat>) {
    0 in fat && fat[0] == 0x0fff_fff8 && 1 in fat && fat[1] == 0x0fff_ffff
  }

  ghost predicate FatLinks(fat: map<nat, nat>, o: Options, n: nat)
    requires n <= |o.files|
  {
    && Reserved(fat)
    && o.rootClus in fat && fat[o.rootClus] == 0x0fff_ffff
    && forall j :: 0 <= j < n ==> ChainLinks(fat, o.files[j].clusters, |o.files[j].clusters|)
  }

  ghost predicate FilesWritten(m: Image, o: Options, n: nat) {
    forall j :: 0 <= j < |o.files| ==>
      Written(m, FileSectorList(o, j), Payload(o.files[j].size, j), if j < n then CeilDiv(o.files[j].size, 512) else 0)
  }

  /** An image under construction: the chains, root slots and contents of a number of files each. */
  ghost predicate Built(m: Image, fat: map<nat, nat>, o: Options, links: nat, slots: nat, data: nat)
    requires GoodOptions(o) && links <= |o.files| && slots <= |o.files|
  {
    FileClustersExist(o);
    && BootHolds(m, o)
    && FatHolds(m, o.Geo(), fat)
    && FatLinks(fat, o, links)
    && RootHolds(m, o, slots)
    && FilesWritten(m, o, data)
  }

  lemma FileClustersExist(o: Options)
    requires GoodOptions(o)
    ensures forall i :: 0 <= i < |o.files| ==> IsBblName(o.files[i].name) && |o.files[i].clusters| > 0
  {
    forall i | 0 <= i < |o.files| ensures |o.files[i].clusters| > 0 {
      ChainCoversFile(o.secPerClus, o.files[i].size, |o.files[i].clusters|);
    }
  }

  lemma WrittenFrame(m: Image, m': Image, s: seq<int>, payload: seq<byte>, n: nat)
    requires Written(m, s, payload, n) && Whole(m')
    requires forall i :: 0 <= i < |s| ==> At(m', s[i]) == At(m, s[i])
    ensures Written(m', s, payload, n)
  {
    hide Piece, At;
  }

  lemma AfterLinks(m: Image, m': Image, fat: map<nat, nat>, fat': map<nat, nat>, o: Options, n: nat)
    requires GoodOptions(o) && n < |o.files| && Built(m, fat, o, n, n, n)
    requires OnlyFatChanged(m, m', o.Geo()) && FatHolds(m', o.Geo(), fat')
    requires ChainLinks(fat', o.files[n].clusters, |o.files[n].clusters|)
    requires forall c :: c in fat && c !in o.files[n].clusters ==> c in fat' && fat'[c] == fat[c]
    ensures Built(m', fat', o, n + 1, n, n)
  {
    hide FatLinks, FilesWritten, RootHolds, BootHolds, GoodFile, GoodGeometry, ChainLinks;
    FileClustersExist(o);
    LinksKept(fat, fat', o, n);
    BootFrame(m, m', o);
    RootFrame(m, m', o, n);
    assert Whole(m') by { WholeFat(m', o.Geo(), fat'); }
    assert forall lba :: !InFat(o.Geo(), lba) && !InCluster(o.Geo(), o.rootClus, lba) ==> At(m', lba) == At(m, lba);
    FilesFrame(m, m', o, n);
  }

  lemma WholeFat(m: Image, g: Geometry, fat: map<nat, nat>)
    requires FatHolds(m, g, fat)
    ensures Whole(m)
  {
  }

  lemma BootFrame(m: Image, m': Image, o: Options)
    requires GoodOptions(o) && BootHolds(m, o)
    requires forall lba :: lba == 0 || lba == o.PartitionOffset() ==> At(m', lba) == At(m, lba) || InFat(o.Geo(), lba)
    ensures BootHolds(m', o)
  {
    hide MbrSector, VbrSector, At;
    assert !InFat(o.Geo(), 0) && !InFat(o.Geo(), o.PartitionOffset());
  }

  lemma RootFrame(m: Image, m': Image, o: Options, n: nat)
    requires GoodOptions(o) && n <= |o.files|
    requires forall i :: 0 <= i < |o.files| ==> IsBblName(o.files[i].name) && |o.files[i].clusters| > 0
    requires RootHolds(m, o, n)
    requires forall l :: InCluster(o.Geo(), o.rootClus, l) && !InFat(o.Geo(), l) ==> At(m', l) == At(m, l)
    ensures RootHolds(m', o, n)
  {
    hide EntryBytes, SectorSlots, At, InFat, IsBblName, GoodFile, LayoutFits;
    var lba := o.Geo().ClusterLba(o.rootClus);
    forall l | lba <= l < lba + o.secPerClus ensures At(m', l) == At(m, l) {
      assert InCluster(o.Geo(), o.rootClus, l);
      RootRegion(o, l);
    }
  }

  lemma FilesFrame(m: Image, m': Image, o: Options, n: nat)
    requires GoodOptions(o) && FilesWritten(m, o, n) && Whole(m')
    requires forall lba :: !InFat(o.Geo(), lba) && !InCluster(o.Geo(), o.rootClus, lba) ==> At(m', lba) == At(m, lba)
    ensures FilesWritten(m', o, n)
  {
    hide Written, At, InFat, InCluster;
    forall j | 0 <= j < |o.files|
      ensures Written(m', FileSectorList(o, j), Payload(o.files[j].size, j),
                      if j < n then CeilDiv(o.files[j].size, 512) else 0)
    {
      var s := FileSectorList(o, j);
      forall i | 0 <= i < |s| ensures At(m', s[i]) == At(m, s[i]) { FileRegion(o, j, i); }
      WrittenFrame(m, m', s, Payload(o.files[j].size, j), if j < n then CeilDiv(o.files[j].size, 512) else 0);
    }
  }

  lemma LinksKept(fat: map<nat, nat>, fat': map<nat, nat>, o: Options, n: nat)
    requires GoodOptions(o) && n < |o.files| && FatLinks(fat, o, n)
    requires ChainLinks(fat', o.files[n].clusters, |o.files[n].clusters|)
    requires forall c :: c in fat && c !in o.files[n].clusters ==> c in fat' && fat'[c] == fat[c]
    ensures FatLinks(fat', o, n + 1)
  {
    hide ChainLinks, GoodFile, GoodGeometry;
    var chain := o.files[n].clusters;
    forall j | 0 <= j < n ensures ChainLinks(fat', o.files[j].clusters, |o.files[j].clusters|) {
      assert SetOf(o.files[j].clusters) !! SetOf(chain);
      ChainKept(fat, fat', o.files[j].clusters, chain);
    }
    ReservedClusters(o, n);
  }

  lemma ChainKept(fat: map<nat, nat>, fat': map<nat, nat>, p: seq<nat>, chain: seq<nat>)
    requires ChainLinks(fat, p, |p|) && SetOf(p) !! SetOf(chain)
    requires forall c :: c in fat && c !in chain ==> c in fat' && fat'[c] == fat[c]
    ensures ChainLinks(fat', p, |p|)
  {
    assert forall c :: c in chain ==> c in SetOf(chain);
    assert forall i :: 0 <= i < |p| ==> p[i] in SetOf(p);
  }

  lemma ReservedClusters(o: Options, n: nat)
    requires GoodOptions(o) && n < |o.files|
    ensures 0 !in o.files[n].clusters && 1 !in o.files[n].clusters && o.rootClus !in o.files[n].clusters
  {
    assert GoodFile(o, o.files[n]);
  }

  lemma FatFrame(m: Image, m': Image, g: Geometry, fat: map<nat, nat>)
    requires FatHolds(m, g, fat) && Whole(m') && (g.numFats == 1 || g.numFats == 2)
    requires forall lba :: InFat(g, lba) ==> At(m', lba) == At(m, lba)
    ensures FatHolds(m', g, fat)
  {
    hide At;
    forall c | c in fat ensures FatWord(m', g.Fat1Start(), c) == fat[c] {
      assert InFat(g, g.Fat1Start() + c * 4 / 512);
    }
    forall i: nat | g.numFats == 2 && i < g.fatSz32 ensures MirrorAt(m', g, i) {
      assert MirrorAt(m, g, i);
      assert InFat(g, g.Fat1Start() + i) && InFat(g, g.Fat2Start() + i);
    }
  }

  lemma SlotOverlay(sec: seq<byte>, n: nat, slot: seq<byte>, k: nat)
    requires |sec| == SECTOR_BYTES && |slot| == 32 && n < 16 && k < 16
    ensures SectorSlots(Overlay(sec, n * 32, slot))[k] == if k == n then slot else SectorSlots(sec)[k]
  {
    var r := Overlay(sec, n * 32, slot);
    assert forall i :: 0 <= i < 32 ==> r[k * 32 + i] == if k == n then slot[i] else sec[k * 32 + i];
  }

  function WithEntry(m: Image, o: Options, n: nat): Image
    requires GoodOptions(o) && n < |o.files| && |At(m, o.Geo().ClusterLba(o.rootClus))| == SECTOR_BYTES
    requires IsBblName(o.files[n].name) && |o.files[n].clusters| > 0
  {
    var lba := o.Geo().ClusterLba(o.rootClus);
    m[lba := Overlay(At(m, lba), n * 32, EntryBytes(o.files[n]))]
  }

  lemma RootGrows(m: Image, o: Options, n: nat)
    requires GoodOptions(o) && n < |o.files|
    requires forall i :: 0 <= i < |o.files| ==> IsBblName(o.files[i].name) && |o.files[i].clusters| > 0
    requires RootHolds(m, o, n)
    ensures RootHolds(WithEntry(m, o, n), o, n + 1)
  {
    hide EntryBytes, SectorSlots, IsBblName, GoodFile, GoodGeometry, Overlay;
    var lba, m' := o.Geo().ClusterLba(o.rootClus), WithEntry(m, o, n);
    forall k | 0 <= k < 16
      ensures SectorSlots(At(m', lba))[k] == if k == n then EntryBytes(o.files[n]) else SectorSlots(At(m, lba))[k]
    {
      SlotOverlay(At(m, lba), n, EntryBytes(o.files[n]), k);
    }
    assert forall l :: l != lba ==> At(m', l) == At(m, l);
    assert |At(m', lba)| == SECTOR_BYTES;
  }

  lemma AfterEntry(m: Image, fat: map<nat, nat>, o: Options, n: nat)
    requires GoodOptions(o) && n < |o.files| && Built(m, fat, o, n + 1, n, n)
    ensures IsBblName(o.files[n].name) && |o.files[n].clusters| > 0
    ensures |At(m, o.Geo().ClusterLba(o.rootClus))| == SECTOR_BYTES
    ensures Built(WithEntry(m, o, n), fat, o, n + 1, n + 1, n)
  {
    hide FatLinks, FilesWritten, GoodFile, EntryBytes, SectorSlots, Overlay, MbrSector, VbrSector;
    FileClustersExist(o);
    RootGrows(m, o, n);
    WholeFat(m, o.Geo(), fat);
    var lba, m' := o.Geo().ClusterLba(o.rootClus), WithEntry(m, o, n);
    assert InCluster(o.Geo(), o.rootClus, lba);
    RootRegion(o, lba);
    EntryFrames(m, m', fat, o, n, lba);
  }

  /** A write to the first root sector leaves every other region alone. */
  lemma EntryFrames(m: Image, m': Image, fat: map<nat, nat>, o: Options, n: nat, lba: int)
    requires GoodOptions(o) && n < |o.files| && Whole(m')
    requires BootHolds(m, o) && FatHolds(m, o.Geo(), fat) && FilesWritten(m, o, n)
    requires InCluster(o.Geo(), o.rootClus, lba) && forall l :: l != lba ==> At(m', l) == At(m, l)
    ensures BootHolds(m', o) && FatHolds(m', o.Geo(), fat) && FilesWritten(m', o, n)
  {
    hide FatHolds, FilesWritten, BootHolds, GoodFile, At;
    RootRegion(o, lba);
    FatFrame(m, m', o.Geo(), fat);
    BootFrame(m, m', o);
    FilesFrame(m, m', o, n);
  }

  lemma AfterData(m: Image, m': Image, fat: map<nat, nat>, o: Options, n: nat)
    requires GoodOptions(o) && n < |o.files| && Built(m, fat, o, n + 1, n + 1, n)
    requires OnlyChanged(m, m', FileSectorList(o, n))
    requires Written(m', FileSectorList(o, n), Payload(o.files[n].size, n), CeilDiv(o.files[n].size, 512))
    ensures Built(m', fat, o, n + 1, n + 1, n + 1)
  {
    hide FatLinks, GoodFile, LayoutFits, RootHolds, BootHolds, FatHolds, At;
    FileClustersExist(o);
    var s := FileSectorList(o, n);
    forall lba | lba == 0 || lba == o.PartitionOffset() || InFat(o.Geo(), lba) || InCluster(o.Geo(), o.rootClus, lba)
      ensures At(m', lba) == At(m, lba)
    {
      if i :| 0 <= i < |s| && s[i] == lba { FileRegion(o, n, i); }
    }
    FatFrame(m, m', o.Geo(), fat);
    BootFrame(m, m', o);
    RootFrame(m, m', o, n + 1);
    DataGrows(m, m', o, n);
  }

  lemma DataGrows(m: Image, m': Image, o: Options, n: nat)
    requires GoodOptions(o) && n < |o.files| && FilesWritten(m, o, n)
    requires OnlyChanged(m, m', FileSectorList(o, n))
    requires Written(m', FileSectorList(o, n), Payload(o.files[n].size, n), CeilDiv(o.files[n].size, 512))
    ensures FilesWritten(m', o, n + 1)
  {
    hide GoodFile, GoodGeometry, Piece, At, FileSectorList;
    forall j | 0 <= j < |o.files|
      ensures Written(m', FileSectorList(o, j), Payload(o.files[j].size, j),
                      if j < n + 1 then CeilDiv(o.files[j].size, 512) else 0)
    {
      if j != n {
        var s := FileSectorList(o, j);
        forall i | 0 <= i < |s| ensures At(m', s[i]) == At(m, s[i]) { FilesApart(o, j, n, i); }
        WrittenFrame(m, m', s, Payload(o.files[j].size, j), if j < n then CeilDiv(o.files[j].size, 512) else 0);
      }
    }
  }

  /** The boot sectors are stored, the FAT is touched, everything else is blank. */
  ghost predicate Formatted(m: Image, fat: map<nat, nat>, o: Options) {
    && FatHolds(m, o.Geo(), fat)
    && BootHolds(m, o)
    && forall lba :: lba != 0 && lba != o.PartitionOffset() && !InFat(o.Geo(), lba) ==> At(m, lba) == Blank()
  }

  lemma FormattedStart(o: Options)
    requires GoodOptions(o)
    ensures var m := if o.mbr then map[0 := MbrSector(o)] else map[];
            Formatted(m[o.PartitionOffset() := VbrSector(o)], map[], o)
  {
    hide MbrSector, VbrSector;
    assert !InFat(o.Geo(), 0) && !InFat(o.Geo(), o.PartitionOffset());
  }

  lemma FormattedFrame(m: Image, m': Image, fat: map<nat, nat>, fat': map<nat, nat>, o: Options)
    requires GoodOptions(o) && Formatted(m, fat, o)
    requires OnlyFatChanged(m, m', o.Geo()) && FatHolds(m', o.Geo(), fat')
    ensures Formatted(m', fat', o)
  {
    hide FatHolds, BootHolds, At;
    BootFrame(m, m', o);
  }

  lemma FormattedIsBuilt(m: Image, fat: map<nat, nat>, o: Options)
    requires GoodOptions(o) && Formatted(m, fat, o)
    requires Reserved(fat) && o.rootClus in fat && fat[o.rootClus] == 0x0fff_ffff
    ensures Built(m, fat, o, 0, 0, 0)
  {
    hide FatHolds, BootHolds, GoodFile;
    FileClustersExist(o);
    WholeFat(m, o.Geo(), fat);
    var lba := o.Geo().ClusterLba(o.rootClus);
    forall l | lba <= l < lba + o.secPerClus ensures At(m, l) == Blank() { RootRegion(o, l); }
    assert forall k :: 0 <= k < 16 ==> SectorSlots(Blank())[k] == Zeros(32);
    forall j | 0 <= j < |o.files| ensures Written(m, FileSectorList(o, j), Payload(o.files[j].size, j), 0) {
      forall i | 0 <= i < |FileSectorList(o, j)| ensures At(m, FileSectorList(o, j)[i]) == Blank() {
        FileRegion(o, j, i);
      }
    }
  }

  lemma NumFats(o: Options)
    requires GoodOptions(o)
    ensures o.numFats == 1 || o.numFats == 2
  {
  }

  lemma FatSectorOf(o: Options, c: nat)
    requires GoodOptions(o) && (c < 2 || o.Geo().InRange(c))
    ensures c * 4 / 512 < o.fatSz32 && c < 0x1000_0000
  {
  }

  lemma ChainInFat(o: Options, n: nat)
    requires GoodOptions(o) && n < |o.files|
    ensures forall i :: 0 <= i < |o.files[n].clusters| ==>
              o.files[n].clusters[i] * 4 / 512 < o.fatSz32 && o.files[n].clusters[i] < 0x1000_0000
    ensures Distinct(o.files[n].clusters)
  {
    assert GoodFile(o, o.files[n]);
    forall i | 0 <= i < |o.files[n].clusters|
      ensures o.files[n].clusters[i] * 4 / 512 < o.fatSz32 && o.files[n].clusters[i] < 0x1000_0000
    {
      FatSectorOf(o, o.files[n].clusters[i]);
    }
  }

  lemma PayloadFits(o: Options, n: nat)
    requires GoodOptions(o) && n < |o.files|
    ensures o.secPerClus > 0 && Distinct(FileSectorList(o, n))
    ensures CeilDiv(o.files[n].size, 512) <= |FileSectorList(o, n)|
  {
    assert GoodFile(o, o.files[n]);
    SectorsDistinct(o.Geo(), o.files[n].clusters);
    SectorsLength(o.Geo(), o.files[n].clusters);
    ChainCoversFile(o.secPerClus, o.files[n].size, |o.files[n].clusters|);
  }

  /** The card a reader sees. */
  function CardOf(m: Image, o: Options): Card {
    Card(seq(o.cardSectors, lba requires 0 <= lba < o.cardSectors => At(m, lba)))
  }

  class SparseFat32Card {
    const o: Options
    var sectors: Image
    var payloads: map<string, seq<byte>>
    ghost var fat: map<nat, nat>

    /** Formats the card and stores every file. */
    constructor (o: Options)
      requires GoodOptions(o)
      ensures this.o == o && Built(sectors, fat, o, |o.files|, |o.files|, |o.files|)
      ensures forall j :: 0 <= j < |o.files| ==>
                o.files[j].name in payloads && payloads[o.files[j].name] == Payload(o.files[j].size, j)
    {
      this.o := o;
      sectors, payloads, fat := map[], map[], map[];
      new;
      hide Built, GoodFile, GoodGeometry, Payload;
      Format();
      for idx := 0 to |o.files|
        invariant this.o == o && Built(sectors, fat, o, idx, idx, idx)
        invariant forall j :: 0 <= j < idx ==>
                    o.files[j].name in payloads && payloads[o.files[j].name] == Payload(o.files[j].size, j)
      {
        AddFile(idx);
      }
    }

    method Format()
      requires GoodOptions(o) && sectors == map[] && fat == map[]
      modifies this
      ensures Built(sectors, fat, o, 0, 0, 0) && payloads == old(payloads)
    {
      hide Formatted, FatHolds, GoodFile, MbrSector, VbrSector, OnlyFatChanged, Built;
      FormattedStart(o);
      if o.mbr {
        sectors := sectors[0 := MbrSector(o)];
      }
      sectors := sectors[o.PartitionOffset() := VbrSector(o)];
      FormatFat(0, 0x0fff_fff8);
      FormatFat(1, END_OF_CHAIN);
      FormatFat(o.rootClus, END_OF_CHAIN);
      FormattedIsBuilt(sectors, fat, o);
    }

    method FormatFat(c: nat, v: nat)
      requires GoodOptions(o) && Formatted(sectors, fat, o) && (c < 2 || o.Geo().InRange(c)) && v < 0x1_0000_0000
      modifies `sectors, `fat
      ensures Formatted(sectors, fat, o) && fat == old(fat)[c := v]
    {
      FatSectorOf(o, c);
      ghost var m := sectors;
      SetFat(c, v);
      FormattedFrame(m, sectors, old(fat), fat, o);
    }

    /** One round of the file loop: links, directory slot, contents. */
    method AddFile(idx: nat)
      requires GoodOptions(o) && idx < |o.files| && Built(sectors, fat, o, idx, idx, idx)
      modifies this
      ensures Built(sectors, fat, o, idx + 1, idx + 1, idx + 1)
      ensures payloads == old(payloads)[o.files[idx].name := Payload(o.files[idx].size, idx)]
    {
      hide FatHolds, FatLinks, GoodFile, GoodGeometry, BootHolds, RootHolds, Written, ChainLinks, OnlyFatChanged,
           OnlyChanged;
      var f := o.files[idx];
      ChainInFat(o, idx);
      NumFats(o);
      SetChain(f.clusters);
      AfterLinks(old(sectors), sectors, old(fat), fat, o, idx);
      AfterEntry(sectors, fat, o, idx);
      sectors := WithEntry(sectors, o, idx);
      var payload := Payload(f.size, idx);
      payloads := payloads[f.name := payload];
      ghost var m := sectors;
      PayloadFits(o, idx);
      WritePayload(f.clusters, payload);
      AfterData(m, sectors, fat, o, idx);
    }

    /** `setFat`: the link of one cluster, in every FAT. */
    method SetFat(c: nat, v: nat)
      requires FatHolds(sectors, o.Geo(), fat)
      requires (o.numFats == 1 || o.numFats == 2) && c * 4 / 512 < o.fatSz32 && v < 0x1_0000_0000
      modifies `sectors, `fat
      ensures FatHolds(sectors, o.Geo(), fat) && fat == old(fat)[c := v]
      ensures OnlyFatChanged(old(sectors), sectors, o.Geo())
    {
      hide FatHolds, OnlyFatChanged, WithWord;
      ghost var m := sectors;
      WholeFat(m, o.Geo(), fat);
      if o.numFats == 1 {
        StoreFirst(m, o.Geo(), fat, c, v);
        sectors := WithWord(sectors, o.Geo().Fat1Start(), c, v);
      } else {
        StoreBoth(m, o.Geo(), fat, c, v);
        sectors := WithWord(sectors, o.Geo().Fat1Start(), c, v);
        sectors := WithWord(sectors, o.Geo().Fat2Start(), c, v);
      }
      fat := fat[c := v];
    }

    /** Links the clusters of one file. */
    method SetChain(chain: seq<nat>)
      requires FatHolds(sectors, o.Geo(), fat) && (o.numFats == 1 || o.numFats == 2)
      requires Distinct(chain)
      requires forall i :: 0 <= i < |chain| ==> chain[i] * 4 / 512 < o.fatSz32 && chain[i] < 0x1000_0000
      modifies `sectors, `fat
      ensures FatHolds(sectors, o.Geo(), fat) && ChainLinks(fat, chain, |chain|)
      ensures forall c :: c in old(fat) && c !in chain ==> c in fat && fat[c] == old(fat)[c]
      ensures OnlyFatChanged(old(sectors), sectors, o.Geo())
    {
      hide FatHolds, InFat, At;
      for i := 0 to |chain|
        invariant FatHolds(sectors, o.Geo(), fat)
        invariant ChainLinks(fat, chain, i)
        invariant forall c :: c in old(fat) && c !in chain ==> c in fat && fat[c] == old(fat)[c]
        invariant OnlyFatChanged(old(sectors), sectors, o.Geo())
      {
        SetFat(chain[i], LinkAfter(chain, i));
      }
    }

    /** Stores a file's payload in the sectors of its chain. */
    method WritePayload(chain: seq<nat>, payload: seq<byte>)
      requires Written(sectors, Sectors(o.Geo(), chain), payload, 0)
      requires Distinct(Sectors(o.Geo(), chain)) && o.secPerClus > 0
      requires CeilDiv(|payload|, 512) <= |Sectors(o.Geo(), chain)|
      modifies `sectors
      ensures Written(sectors, Sectors(o.Geo(), chain), payload, CeilDiv(|payload|, 512))
      ensures OnlyChanged(old(sectors), sectors, Sectors(o.Geo(), chain))
    {
      hide Sectors, Written, CeilDiv, At, Distinct;
      ghost var g, all := o.Geo(), Sectors(o.Geo(), chain);
      NoSectors(g, chain);
      for ci := 0 to |chain|
        invariant |Sectors(g, chain[..ci])| == ci * o.secPerClus <= |all|
        invariant Written(sectors, all, payload, Min(CeilDiv(|payload|, 512), ci * o.secPerClus))
        invariant OnlyChanged(old(sectors), sectors, all)
      {
        ClusterPart(g, chain, ci);
        Distribute(ci, 1, o.secPerClus);
        WriteCluster(o.Geo().ClusterLba(chain[ci]), ci * o.secPerClus, payload, all);
      }
    }

    /** One cluster of it: `done` sectors of the file come before. */
    method WriteCluster(lba: int, done: nat, payload: seq<byte>, ghost all: seq<int>)
      requires Written(sectors, all, payload, Min(CeilDiv(|payload|, 512), done)) && Distinct(all) && o.secPerClus > 0
      requires done + o.secPerClus <= |all|
      requires forall i :: done <= i < done + o.secPerClus ==> all[i] == lba + (i - done)
      modifies `sectors
      ensures Written(sectors, all, payload, Min(CeilDiv(|payload|, 512), done + o.secPerClus))
      ensures OnlyChanged(old(sectors), sectors, all)
    {
      hide Written, CeilDiv, Overlay, At, Distinct;
      var chunk := payload[Min(done * 512, |payload|)..Min((done + o.secPerClus) * 512, |payload|)];
      var s := 0;
      while s < o.secPerClus && s * 512 < |chunk|
        invariant s <= o.secPerClus
        invariant Written(sectors, all, payload, Min(CeilDiv(|payload|, 512), done + s))
        invariant OnlyChanged(old(sectors), sectors, all)
      {
        PartOfChunk(payload, done, o.secPerClus, s);
        SectorCount(|payload|, done + s);
        assert all[done + s] == lba + s;
        StorePiece(sectors, all, payload, done + s, chunk[s * 512..Min(s * 512 + 512, |chunk|)]);
        sectors := sectors[lba + s := Overlay(At(sectors, lba + s), 0, chunk[s * 512..Min(s * 512 + 512, |chunk|)])];
        s := s + 1;
      }
      if s < o.secPerClus {
        PartOfChunk(payload, done, o.secPerClus, s);
        SectorCount(|payload|, done + s);
      }
    }
  }
}
