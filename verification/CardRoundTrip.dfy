/** A card written by the builder is read back by the reader: the volume mounts, the listing is the
  * files that were stored, sorted, and every file's sectors hold its payload. */
module CardRoundTrip {
  import opened Bytes
  import opened FatVolume
  import opened FatChains
  import opened FatDirectory
  import opened NameOrder
  import opened FatRootReader
  import opened CardImage
  import opened SparseCard

  /** A finished image. */
  ghost predicate Finished(m: Image, fat: map<nat, nat>, o: Options) {
    GoodOptions(o) && Built(m, fat, o, |o.files|, |o.files|, |o.files|)
  }

  lemma FinishedReads(m: Image, fat: map<nat, nat>, o: Options, lba: int)
    requires Finished(m, fat, o) && 0 <= lba < o.cardSectors
    ensures Readable(CardOf(m, o), lba) && CardOf(m, o).Read(lba) == At(m, lba)
  {
    hide Built, GoodOptions, FatHolds;
    FinishedFat(m, fat, o);
    WholeFat(m, o.Geo(), fat);
  }

  lemma SoundOptions(o: Options)
    requires GoodOptions(o)
    ensures SoundGeometry(o.Geo(), o.cardSectors)
  {
  }

  // ---------------------------------------------------------------- mounting

  lemma FinishedMounts(m: Image, fat: map<nat, nat>, o: Options)
    requires Finished(m, fat, o)
    ensures Mounts(CardOf(m, o), o.Geo(), o.cardSectors)
  {
    hide Built, GoodFile, VbrSector, MbrSector, CleanFat, VolumeFits;
    VbrDecodes(o);
    FinishedPartition(m, fat, o);
    FinishedClean(m, fat, o);
    assert VolumeFits(VbrSector(o), o.Geo(), o.cardSectors, o.cardSectors) by { FitsParts(o); }
  }

  lemma FitsParts(o: Options)
    requires GoodGeometry(o)
    ensures VolumeFits(VbrSector(o), o.Geo(), o.cardSectors, o.cardSectors)
  {
    hide VbrSector, FieldsOk, LayoutFits;
    VbrDecodes(o);
  }

  lemma FinishedPartition(m: Image, fat: map<nat, nat>, o: Options)
    requires Finished(m, fat, o)
    ensures PartitionAt(CardOf(m, o), o.PartitionOffset(), o.cardSectors)
    ensures CardOf(m, o).Read(o.PartitionOffset()) == VbrSector(o)
  {
    hide FatHolds, FatLinks, RootHolds, FilesWritten, GoodFile, VbrSector, MbrSector, IsFat32Vbr, CardOf, At, SlotHolds;
    var card := CardOf(m, o);
    CardSize(m, o);
    VbrDecodes(o);
    FinishedReads(m, fat, o, 0);
    FinishedReads(m, fat, o, o.PartitionOffset());
    if o.mbr { MbrDecodes(card, o); }
  }

  lemma CardSize(m: Image, o: Options)
    ensures CardOf(m, o).Count() == o.cardSectors
  {
  }

  lemma FinishedClean(m: Image, fat: map<nat, nat>, o: Options)
    requires Finished(m, fat, o)
    ensures CleanFat(CardOf(m, o), o.Geo())
  {
    hide Built, GoodOptions, CardOf, Mirrored, FatHolds, U32;
    FinishedFat(m, fat, o);
    SoundOptions(o);
    WordStored(m, o.Geo(), fat, 1);
    FatSlotInFat(o.Geo(), o.cardSectors, o.rootClus);
    FinishedMirror(m, fat, o, 0);
    FinishedReads(m, fat, o, o.Geo().Fat1Start());
  }

  lemma FinishedFat(m: Image, fat: map<nat, nat>, o: Options)
    requires Finished(m, fat, o)
    ensures FatHolds(m, o.Geo(), fat) && FatLinks(fat, o, |o.files|)
  {
  }

  lemma MirrorStored(m: Image, g: Geometry, fat: map<nat, nat>, i: nat)
    requires FatHolds(m, g, fat) && g.numFats == 2 && i < g.fatSz32
    ensures At(m, g.Fat1Start() + i) == At(m, g.Fat2Start() + i)
  {
    assert MirrorAt(m, g, i);
  }

  lemma WordStored(m: Image, g: Geometry, fat: map<nat, nat>, c: nat)
    requires FatHolds(m, g, fat) && c in fat
    ensures Whole(m) && c * 4 / 512 < g.fatSz32
    ensures U32(At(m, g.Fat1Start() + c * 4 / 512), c * 4 % 512) == fat[c]
  {
    assert FatWord(m, g.Fat1Start(), c) == fat[c];
  }

  lemma FinishedMirror(m: Image, fat: map<nat, nat>, o: Options, i: nat)
    requires Finished(m, fat, o) && i < o.fatSz32
    ensures Mirrored(CardOf(m, o), o.numFats, o.Geo().Fat1Start() + i, o.Geo().Fat2Start() + i)
  {
    hide Built, GoodOptions, CardOf, FatHolds, FatLinks, Readable, At, SoundGeometry, Geometry.CountOfClusters;
    FinishedFat(m, fat, o);
    SoundOptions(o);
    hide Finished;
    FatSlotInFat(o.Geo(), o.cardSectors, o.rootClus);
    FinishedReads(m, fat, o, o.Geo().Fat1Start() + i);
    if o.numFats == 2 {
      FinishedReads(m, fat, o, o.Geo().Fat2Start() + i);
      MirrorStored(m, o.Geo(), fat, i);
    }
  }

  /** The reader sees the link the builder stored. */
  lemma FinishedLink(m: Image, fat: map<nat, nat>, o: Options, c: nat)
    requires Finished(m, fat, o) && c in fat && o.Geo().InRange(c) && fat[c] < 0x1000_0000
    ensures FatEntry(CardOf(m, o), o.Geo(), c) == Some(fat[c])
  {
    hide Built, GoodOptions, CardOf, Mirrored, FatHolds, FatLinks, U32;
    FinishedFat(m, fat, o);
    SoundOptions(o);
    WordStored(m, o.Geo(), fat, c);
    FatSlotInFat(o.Geo(), o.cardSectors, c);
    FinishedMirror(m, fat, o, c * 4 / 512);
    FinishedReads(m, fat, o, o.Geo().Fat1Start() + c * 4 / 512);
  }

  // ---------------------------------------------------------------- the files

  lemma FinishedChain(m: Image, fat: map<nat, nat>, o: Options, j: nat)
    requires Finished(m, fat, o) && j < |o.files|
    ensures |o.files[j].clusters| > 0
    ensures FileHasChain(CardOf(m, o), o.Geo(), {o.rootClus}, o.files[j].clusters[0], o.files[j].size,
                         o.files[j].clusters)
  {
    hide RootHolds, FilesWritten, BootHolds, CardOf, FatHolds, FatEntry, LayoutFits;
    FileClustersExist(o);
    var chain := o.files[j].clusters;
    assert GoodFile(o, o.files[j]) && ChainLinks(fat, chain, |chain|);
    forall i | 0 <= i < |chain| ensures FatEntry(CardOf(m, o), o.Geo(), chain[i]) == Some(LinkAfter(chain, i)) {
      LinkIsSmall(o, chain, i);
      FinishedLink(m, fat, o, chain[i]);
    }
  }

  lemma LinkIsSmall(o: Options, chain: seq<nat>, i: nat)
    requires GoodGeometry(o) && i < |chain| && forall k :: 0 <= k < |chain| ==> o.Geo().InRange(chain[k])
    ensures LinkAfter(chain, i) < 0x1000_0000
  {
  }

  /** Whole pieces add up to the payload; the last one is cut by the file size. */
  lemma {:induction false} PiecesAddUp(card: Card, sectors: seq<int>, payload: seq<byte>)
    requires |sectors| <= CeilDiv(|payload|, 512)
    requires forall i: nat :: i < |sectors| ==> i * 512 < |payload| && card.Read(sectors[i]) == Piece(payload, i)
    ensures |ReadAll(card, sectors)| == 512 * |sectors|
    ensures ReadAll(card, sectors)[..Min(512 * |sectors|, |payload|)] == payload[..Min(512 * |sectors|, |payload|)]
  {
    if sectors != [] {
      var n := |sectors| - 1;
      PiecesAddUp(card, sectors[..n], payload);
      assert n * 512 < |payload| && card.Read(sectors[n]) == Piece(payload, n);
      assert ReadAll(card, sectors[..n]) == payload[..n * 512];
      LastPiece(payload, n);
      TakeBeyond(payload[..n * 512], Piece(payload, n), Min(512, |payload| - n * 512));
    }
  }

  lemma TakeBeyond(a: seq<byte>, b: seq<byte>, k: nat)
    requires k <= |b|
    ensures (a + b)[..|a| + k] == a + b[..k]
  {
  }

  lemma LastPiece(payload: seq<byte>, n: nat)
    requires n * 512 < |payload|
    ensures payload[..n * 512] + Piece(payload, n)[..Min(512, |payload| - n * 512)]
        == payload[..Min((n + 1) * 512, |payload|)]
  {
  }

  /** A stored file: the reader accepts it, its sectors are the builder's, and reading them gives the
    * payload back. */
  lemma FinishedFile(m: Image, fat: map<nat, nat>, o: Options, j: nat)
    requires Finished(m, fat, o) && j < |o.files|
    ensures |o.files[j].clusters| > 0 && CeilDiv(o.files[j].size, 512) <= |FileSectorList(o, j)|
    ensures var sectors := FileSectorList(o, j)[..CeilDiv(o.files[j].size, 512)];
      && FileSectors(CardOf(m, o), o.Geo(), {o.rootClus}, o.files[j].clusters[0], o.files[j].size, sectors)
      && |ReadAll(CardOf(m, o), sectors)| >= o.files[j].size
      && ReadAll(CardOf(m, o), sectors)[..o.files[j].size] == Payload(o.files[j].size, j)
  {
    hide RootHolds, BootHolds, CardOf, FatHolds, FatLinks, FileHasChain, Piece, Payload, LayoutFits, ReadAll;
    FinishedChain(m, fat, o, j);
    PayloadFits(o, j);
    var f, card, all := o.files[j], CardOf(m, o), FileSectorList(o, j);
    var total := CeilDiv(f.size, 512);
    assert Written(m, all, Payload(f.size, j), total);
    forall i: nat | i < total ensures i * 512 < f.size && card.Read(all[..total][i]) == Piece(Payload(f.size, j), i) {
      FileSectorOnCard(o, j, i);
      FinishedReads(m, fat, o, all[i]);
    }
    PiecesAddUp(card, all[..total], Payload(f.size, j));
    CeilDivBounds(f.size, 512);
  }

  lemma FileSectorOnCard(o: Options, j: nat, i: nat)
    requires GoodOptions(o) && j < |o.files| && i < |FileSectorList(o, j)|
    ensures 0 <= FileSectorList(o, j)[i] < o.cardSectors
  {
    SoundOptions(o);
    assert GoodFile(o, o.files[j]);
    var _, _ := SectorOwner(o.Geo(), o.cardSectors, o.files[j].clusters, i);
  }

  // ---------------------------------------------------------------- the listing

  /** The directory slots of the stored files. */
  function EntrySlots(o: Options): (s: seq<DirSlot>)
    requires GoodOptions(o)
    ensures |s| == |o.files|
  {
    FileClustersExist(o);
    seq(|o.files|, k requires 0 <= k < |o.files| => EntryBytes(o.files[k]))
  }

  function Entries(o: Options): (s: seq<Entry>)
    requires GoodOptions(o)
    ensures |s| == |o.files|
  {
    FileClustersExist(o);
    seq(|o.files|, k requires 0 <= k < |o.files| => ToEntry(o.files[k]))
  }

  lemma SlotDecodes(o: Options, k: nat)
    requires GoodOptions(o) && k < |o.files|
    ensures var b := EntrySlots(o)[k];
      !IsEnd(b) && IsBfl(b) && !IsSubdirectory(b) && EntryOf(b) == Entries(o)[k] && NameOf(b) == o.files[k].name
  {
    hide IsBfl, EntryBytes, LayoutFits;
    FileClustersExist(o);
    assert GoodFile(o, o.files[k]);
    ChainInFat(o, k);
    EntryDecodes(o.files[k]);
  }

  lemma {:induction false} SlotsListEntries(o: Options, k: nat)
    requires GoodOptions(o) && k <= |o.files|
    ensures BflFiles(EntrySlots(o)[..k]) == Entries(o)[..k] && BflDirs(EntrySlots(o)[..k]) == []
  {
    hide GoodOptions, EntrySlots, Entries, IsBfl, IsSubdirectory;
    if k > 0 {
      SlotsListEntries(o, k - 1);
      SlotDecodes(o, k - 1);
      var s := EntrySlots(o);
      assert s[..k] == s[..k - 1] + [s[k - 1]];
      BflAppend(s[..k - 1], s[k - 1]);
    }
  }

  lemma SlotNamesUnique(o: Options)
    requires GoodOptions(o)
    ensures UniqueNames(EntrySlots(o))
  {
    hide IsBfl, EntrySlots, GoodFile, GoodGeometry;
    forall i, j | 0 <= i < j < |o.files| ensures NameOf(EntrySlots(o)[i]) != NameOf(EntrySlots(o)[j]) {
      SlotDecodes(o, i);
      SlotDecodes(o, j);
      assert o.files[i].name != o.files[j].name;
    }
  }

  lemma FinishedRootPath(m: Image, fat: map<nat, nat>, o: Options)
    requires Finished(m, fat, o)
    ensures RootPath(CardOf(m, o), o.Geo(), [o.rootClus]) && EndMarked(CardOf(m, o), o.Geo(), [o.rootClus])
  {
    hide Built, CardOf, FatEntry, GoodFile, FatHolds;
    FinishedFat(m, fat, o);
    FinishedLink(m, fat, o, o.rootClus);
  }

  /** The root cluster's first two sectors, as far as there are two. */
  lemma RootSectors(g: Geometry, c: nat)
    requires g.secPerClus > 0
    ensures Sectors(g, [c]) == ClusterSectors(g, c) && Sectors(g, [c])[0] == g.ClusterLba(c)
    ensures g.secPerClus > 1 ==> Sectors(g, [c])[1] == g.ClusterLba(c) + 1
    ensures Sectors(g, [c][..0]) == []
  {
    assert [c][..0] == [];
  }

  lemma SlotsOfOne(card: Card, s: seq<int>)
    requires |s| > 0 && Readable(card, s[0])
    ensures AllReadable(card, s[..1]) && SlotsOf(card, s[..1]) == SectorSlots(card.Read(s[0]))
  {
    assert s[..1][..0] == [];
    assert s[..1] == [s[0]];
  }

  lemma RootOnCard(o: Options, k: nat)
    requires GoodOptions(o) && k < o.secPerClus
    ensures 0 <= o.Geo().ClusterLba(o.rootClus) + k < o.cardSectors && o.secPerClus > 0
  {
    SoundOptions(o);
    ClusterInVolume(o.Geo(), o.cardSectors, o.rootClus);
  }

  lemma FirstRootSector(m: Image, fat: map<nat, nat>, o: Options)
    requires Finished(m, fat, o) && o.secPerClus > 0
    ensures var s := Sectors(o.Geo(), [o.rootClus]);
      && Readable(CardOf(m, o), s[0])
      && (forall k :: 0 <= k < |o.files| ==> SectorSlots(CardOf(m, o).Read(s[0]))[k] == EntrySlots(o)[k])
      && (forall k :: |o.files| <= k < 16 ==> IsEnd(SectorSlots(CardOf(m, o).Read(s[0]))[k]))
  {
    hide CardOf, FatHolds, FatLinks, FilesWritten, BootHolds, GoodFile, GoodGeometry, SectorSlots, EntryBytes;
    RootSectors(o.Geo(), o.rootClus);
    RootOnCard(o, 0);
    FinishedReads(m, fat, o, o.Geo().ClusterLba(o.rootClus));
    FileClustersExist(o);
  }

  lemma SecondRootSector(m: Image, fat: map<nat, nat>, o: Options)
    requires Finished(m, fat, o) && o.secPerClus > 1
    ensures var s := Sectors(o.Geo(), [o.rootClus]);
      |s| == o.secPerClus && Readable(CardOf(m, o), s[1]) && CardOf(m, o).Read(s[1]) == Blank()
  {
    hide CardOf, FatHolds, FatLinks, FilesWritten, BootHolds, GoodFile, GoodGeometry, SectorSlots, EntryBytes;
    RootSectors(o.Geo(), o.rootClus);
    RootOnCard(o, 1);
    FinishedReads(m, fat, o, o.Geo().ClusterLba(o.rootClus) + 1);
    FileClustersExist(o);
  }

  /** The complete scan of a built card sees the stored files' slots: one sector of them, and with
    * sixteen files and a second sector in the cluster, the end marker that sector starts with. */
  lemma FinishedScan(m: Image, fat: map<nat, nat>, o: Options) returns (n: nat)
    requires Finished(m, fat, o)
    ensures Scan(CardOf(m, o), o.Geo(), [o.rootClus], n, EntrySlots(o))
  {
    hide Built, GoodOptions, EntrySlots;
    RootNotEmpty(o);
    if |o.files| < 16 || o.secPerClus == 1 {
      n := 1;
      OneSectorScan(m, fat, o);
    } else {
      n := 2;
      TwoSectorScan(m, fat, o);
    }
  }

  lemma OneSectorScan(m: Image, fat: map<nat, nat>, o: Options)
    requires Finished(m, fat, o) && (|o.files| < 16 || o.secPerClus == 1)
    ensures Scan(CardOf(m, o), o.Geo(), [o.rootClus], 1, EntrySlots(o))
  {
    hide CardOf, Built, GoodOptions, EntrySlots, SectorSlots, FatEntry, IsEnd, RootPath, EndMarked;
    var card, g, s := CardOf(m, o), o.Geo(), Sectors(o.Geo(), [o.rootClus]);
    RootNotEmpty(o);
    FinishedRootPath(m, fat, o);
    RootSectors(g, o.rootClus);
    FirstRootSector(m, fat, o);
    SlotsOfOne(card, s);
    forall k | 0 <= k < |o.files| ensures !IsEnd(EntrySlots(o)[k]) { SlotDecodes(o, k); }
    assert EntrySlots(o) <= SectorSlots(card.Read(s[0]));
  }

  lemma TwoSectorScan(m: Image, fat: map<nat, nat>, o: Options)
    requires Finished(m, fat, o) && |o.files| == 16 && o.secPerClus > 1
    ensures Scan(CardOf(m, o), o.Geo(), [o.rootClus], 2, EntrySlots(o))
  {
    hide CardOf, Built, GoodOptions, EntrySlots, SectorSlots, FatEntry, IsEnd, RootPath, EndMarked;
    var card, g, s := CardOf(m, o), o.Geo(), Sectors(o.Geo(), [o.rootClus]);
    FinishedRootPath(m, fat, o);
    RootSectors(g, o.rootClus);
    FirstRootSector(m, fat, o);
    SlotsOfOne(card, s);
    forall k | 0 <= k < |o.files| ensures !IsEnd(EntrySlots(o)[k]) { SlotDecodes(o, k); }
    SecondRootSector(m, fat, o);
    SlotsStep(card, s, 1);
    BlankEnds();
    assert EntrySlots(o) == SectorSlots(card.Read(s[0]));
    assert (SectorSlots(card.Read(s[0])) + SectorSlots(Blank()))[16] == SectorSlots(Blank())[0];
  }

  lemma RootNotEmpty(o: Options)
    requires GoodOptions(o)
    ensures o.secPerClus > 0 && |o.files| <= 16
  {
  }

  lemma BlankEnds()
    ensures IsEnd(SectorSlots(Blank())[0])
  {
  }

  /** Whatever a listing of a built card answers, it is the stored files, sorted by name. */
  lemma FinishedListing(m: Image, fat: map<nat, nat>, o: Options, files: seq<Entry>, subdirs: seq<string>,
                        root: set<nat>)
    requires Finished(m, fat, o) && Listing(CardOf(m, o), o.Geo(), files, subdirs, root)
    ensures files == SortBy(Entries(o), EntryName) && subdirs == [] && root == {o.rootClus}
  {
    hide CardOf, Built, EntrySlots, Entries, Scan, GoodFile, LayoutFits, BflFiles, BflDirs, UniqueNames;
    var n := FinishedScan(m, fat, o);
    var chain, n', slots :| ListingOf(CardOf(m, o), o.Geo(), files, subdirs, root, chain, n', slots);
    CardSize(m, o);
    SoundOptions(o);
    ScanIsUnique(CardOf(m, o), o.Geo(), o.cardSectors, [o.rootClus], n, EntrySlots(o), chain, n', slots);
    SlotsListEntries(o, |o.files|);
    assert EntrySlots(o)[..|o.files|] == EntrySlots(o) && Entries(o)[..|o.files|] == Entries(o);
    EntriesSorted(o);
    AscendingIsUnique(files, SortBy(Entries(o), EntryName), EntryName);
    assert |subdirs| == |multiset(subdirs)| == 0;
  }

  lemma EntriesSorted(o: Options)
    requires GoodOptions(o)
    ensures Ascending(SortBy(Entries(o), EntryName), EntryName)
  {
    hide GoodFile, GoodGeometry;
    SortByAscending(Entries(o), EntryName);
  }

  lemma FinishedListable(m: Image, fat: map<nat, nat>, o: Options)
    requires Finished(m, fat, o)
    ensures Listable(CardOf(m, o), o.Geo())
  {
    hide CardOf, Built, EntrySlots, Scan, GoodOptions, UniqueNames;
    var n := FinishedScan(m, fat, o);
    SlotNamesUnique(o);
  }

  // ---------------------------------------------------------------- the round trip

  /** `files.findIndex((f) => f.name === name)` */
  function FindFile(files: seq<BblFile>, name: string): (r: Option<nat>)
    ensures r.Some? ==> r.value < |files| && files[r.value].name == name
    ensures r.None? ==> forall i :: 0 <= i < |files| ==> files[i].name != name
  {
    if files == [] then None
    else if files[0].name == name then Some(0)
    else match FindFile(files[1..], name) case Some(j) => Some(j + 1) case None => None
  }

  /** `fileSectorLba`: the sector that holds byte `offset` of a file. */
  function FileSectorLba(o: Options, name: string, offset: nat): Option<int>
    requires o.secPerClus > 0
  {
    match FindFile(o.files, name)
    case None => None
    case Some(j) =>
      var clusBytes := o.secPerClus * 512;
      QuotientIsNat(offset, clusBytes);
      if offset / clusBytes < |o.files[j].clusters|
      then Some(o.Geo().ClusterLba(o.files[j].clusters[offset / clusBytes]) + offset % clusBytes / 512)
      else None
  }

  lemma QuotientIsNat(a: nat, b: nat)
    requires b > 0
    ensures a / b >= 0 && a % b >= 0
  {
  }

  lemma OffsetSplit(spc: nat, i: nat)
    requires spc > 0
    ensures i * 512 / (spc * 512) == i / spc && i * 512 % (spc * 512) / 512 == i % spc
  {
    var q, r := i / spc, i % spc;
    DivModSplit(i, spc);
    MulAssoc(q, spc, 512);
    Distribute(q * spc, r, 512);
    assert i * 512 == q * (spc * 512) + r * 512 && r * 512 < spc * 512;
    QuotientOf(i * 512, spc * 512, q, r * 512);
  }

  lemma QuotientOf(a: nat, b: nat, q: nat, r: nat)
    requires b > 0 && a == q * b + r && r < b
    ensures a / b == q && a % b == r
  {
    DivModSplit(a, b);
    if a / b < q { MulMono(a / b + 1, q, b); Distribute(a / b, 1, b); }
    if a / b > q { MulMono(q + 1, a / b, b); Distribute(q, 1, b); }
  }

  /** The i-th sector the reader lists for a stored file is the one the builder names for it. */
  lemma SameSectors(o: Options, j: nat, i: nat)
    requires GoodOptions(o) && j < |o.files| && i < CeilDiv(o.files[j].size, 512)
    ensures o.secPerClus > 0 && i < |FileSectorList(o, j)|
    ensures FileSectorLba(o, o.files[j].name, 512 * i) == Some(FileSectorList(o, j)[i])
  {
    hide GoodFile, GoodGeometry;
    PayloadFits(o, j);
    assert FindFile(o.files, o.files[j].name) == Some(j);
    SectorAt(o.Geo(), o.files[j].clusters, i);
    OffsetSplit(o.secPerClus, i);
  }

  /** The file a listed entry came from. */
  lemma ListedFile(o: Options, e: Entry) returns (j: nat)
    requires GoodOptions(o) && e in SortBy(Entries(o), EntryName)
    ensures j < |o.files| && |o.files[j].clusters| > 0 && e == ToEntry(o.files[j])
  {
    hide GoodFile, GoodGeometry;
    FileClustersExist(o);
    assert e in multiset(Entries(o));
    j :| 0 <= j < |o.files| && Entries(o)[j] == e;
  }

  /** Write a card, mount it and list it: nothing is refused, and the listing is the stored files sorted
    * by name. */
  method WriteAndList(o: Options)
    returns (reader: Fat32RootReader, listing: seq<Entry>, ghost m: Image, ghost fat: map<nat, nat>)
    requires GoodOptions(o)
    ensures fresh(reader) && reader.Valid() && reader.listed && reader.card == CardOf(m, o)
    ensures reader.Geo() == o.Geo() && reader.rootClusters == {o.rootClus}
    ensures Finished(m, fat, o) && listing == SortBy(Entries(o), EntryName)
  {
    hide CardOf, Built, GoodFile, GoodGeometry, Mounts, Listing, Listable, EntrySlots, Entries, SortBy,
         Fat32RootReader.Valid;
    var writer := new SparseFat32Card(o);
    m, fat := writer.sectors, writer.fat;
    var card := CardOf(writer.sectors, o);
    reader := new Fat32RootReader(card);
    FinishedMounts(m, fat, o);
    assert MountedAs(card, o.Geo());
    var mounted := reader.Mount();
    MountedOnce(card, o.Geo(), reader.Geo());
    FinishedListable(m, fat, o);
    var listed := reader.ListBblFiles();
    listing := listed.value;
    FinishedListing(m, fat, o, listing, reader.bblSubdirectories, reader.rootClusters);
  }

  /** Write a card, mount it, list it and read every listed file: nothing is refused, the listing is
    * the stored files sorted by name, and each file's contents are its payload. */
  method RoundTrip(o: Options) returns (listing: seq<Entry>, contents: seq<seq<byte>>)
    requires GoodOptions(o)
    ensures listing == SortBy(Entries(o), EntryName)
    ensures |contents| == |listing|
    ensures forall k, j :: 0 <= k < |listing| && 0 <= j < |o.files| && o.files[j].name == listing[k].name ==>
              contents[k] == Payload(o.files[j].size, j)
  {
    hide CardOf, Built, GoodOptions, FileSectors, Entries, ReadAll, Payload, SortBy, Fat32RootReader.Valid;
    ghost var m, fat;
    var reader;
    reader, listing, m, fat := WriteAndList(o);
    contents := [];
    for k := 0 to |listing|
      invariant reader.Valid() && reader.listed && reader.card == CardOf(m, o)
      invariant reader.Geo() == o.Geo() && reader.rootClusters == {o.rootClus}
      invariant |contents| == k
      invariant forall k', j :: 0 <= k' < k && 0 <= j < |o.files| && o.files[j].name == listing[k'].name ==>
                  contents[k'] == Payload(o.files[j].size, j)
    {
      var file := ReadFile(reader, listing[k], m, fat, o);
      contents := contents + [file];
    }
  }

  method ReadFile(reader: Fat32RootReader, entry: Entry, ghost m: Image, ghost fat: map<nat, nat>, ghost o: Options)
    returns (file: seq<byte>)
    requires Finished(m, fat, o) && entry in SortBy(Entries(o), EntryName)
    requires reader.Valid() && reader.listed && reader.card == CardOf(m, o)
    requires reader.Geo() == o.Geo() && reader.rootClusters == {o.rootClus}
    modifies reader`cache, reader`cacheOrder
    ensures reader.Valid()
    ensures forall j :: 0 <= j < |o.files| && o.files[j].name == entry.name ==> file == Payload(o.files[j].size, j)
  {
    hide CardOf, Built, GoodOptions, FileSectors, Entries, ReadAll, Payload, SortBy, MountedAs, Listed, CacheHolds,
         Fat32RootReader.Derived;
    ghost var j := ListedFile(o, entry);
    FinishedFile(m, fat, o, j);
    var sectors := reader.FileDataSectors(entry);
    SectorsOnceMore(m, o, j, sectors.value);
    file := ReadAll(reader.card, sectors.value)[..entry.size];
    forall i | 0 <= i < |o.files| && o.files[i].name == entry.name ensures i == j { NamesApart(o, i, j); }
  }

  lemma NamesApart(o: Options, i: nat, j: nat)
    requires GoodOptions(o) && i < |o.files| && j < |o.files| && o.files[i].name == o.files[j].name
    ensures i == j
  {
  }

  lemma SectorsOnceMore(m: Image, o: Options, j: nat, sectors: seq<int>)
    requires GoodOptions(o) && j < |o.files| && |o.files[j].clusters| > 0
    requires CeilDiv(o.files[j].size, 512) <= |FileSectorList(o, j)|
    requires FileSectors(CardOf(m, o), o.Geo(), {o.rootClus}, o.files[j].clusters[0], o.files[j].size, sectors)
    requires FileSectors(CardOf(m, o), o.Geo(), {o.rootClus}, o.files[j].clusters[0], o.files[j].size,
                         FileSectorList(o, j)[..CeilDiv(o.files[j].size, 512)])
    ensures sectors == FileSectorList(o, j)[..CeilDiv(o.files[j].size, 512)]
  {
    hide FileSectors, CardOf;
    CardSize(m, o);
    SoundOptions(o);
    FileSectorsUnique(CardOf(m, o), o.Geo(), {o.rootClus}, o.files[j].clusters[0], o.files[j].size, sectors,
                      FileSectorList(o, j)[..CeilDiv(o.files[j].size, 512)]);
  }
}
