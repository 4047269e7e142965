/** sd-read-mock.ts: the bytes a sparse card image is made of, and that they decode back. */
module CardImage {
  import opened Bytes
  import opened FatVolume
  import opened FatDirectory

  /** `SparseBblFile` and `SparseCardOptions`, with every option given. */
  datatype BblFile = BblFile(name: string, size: nat, clusters: seq<nat>)

  datatype Options = Options(
    cardSectors: nat, secPerClus: nat, fatSz32: nat, rsvdSecCnt: nat, numFats: nat, rootClus: nat,
    mbr: bool, files: seq<BblFile>)
  {
    function PartitionOffset(): nat { if mbr then 2048 else 0 }

    function Geo(): Geometry {
      Geometry(PartitionOffset(), secPerClus, rsvdSecCnt, numFats, fatSz32, rootClus,
               if cardSectors < PartitionOffset() then 0 else cardSectors - PartitionOffset())
    }
  }

  /** `BFLddddd.BBL` */
  predicate IsBblName(name: string) {
    |name| == 12 && name[8] == '.' && IsBblShort(name[..8] + name[9..])
  }

  predicate GoodGeometry(o: Options) {
    && IsClusterSize(o.secPerClus)
    && 0 < o.rsvdSecCnt < 0x1_0000
    && (o.numFats == 1 || o.numFats == 2)
    && 0 < o.fatSz32 < 0x1_0000_0000
    && 0 < o.Geo().totSec < 0x1_0000_0000
    && LayoutFits(o.Geo(), o.cardSectors)
  }

  predicate GoodFile(o: Options, f: BblFile) {
    && IsBblName(f.name)
    && 1 <= f.size <= MAX_FILE_BYTES
    && o.secPerClus > 0
    && |f.clusters| == CeilDiv(f.size, o.secPerClus * 512)
    && Distinct(f.clusters)
    && (forall i :: 0 <= i < |f.clusters| ==> o.Geo().InRange(f.clusters[i]))
    && o.rootClus !in f.clusters
  }

  /** A card image the builder can express: a FAT32 geometry, and at most sixteen logs with
    * different names and disjoint chains of the right length outside the root. */
  predicate GoodOptions(o: Options) {
    && GoodGeometry(o)
    && |o.files| <= 16
    && (forall i :: 0 <= i < |o.files| ==> GoodFile(o, o.files[i]))
    && (forall i, j :: 0 <= i < j < |o.files| ==> o.files[i].name != o.files[j].name)
    && (forall i, j :: 0 <= i < j < |o.files| ==> SetOf(o.files[i].clusters) !! SetOf(o.files[j].clusters))
  }

  /** The options the builder takes when none are given. */
  function DefaultOptions(): Options {
    Options(62333952, 32, 16384, 32, 2, 2, false, [BblFile("BFL00001.BBL", 40116, [3, 4, 5])])
  }

  lemma DefaultsAreGood()
    ensures GoodOptions(DefaultOptions())
  {
    var o := DefaultOptions();
    var f := o.files[0];
    assert IsBblName(f.name) by {
      assert f.name[..8] + f.name[9..] == "BFL00001BBL";
    }
    assert |f.clusters| == CeilDiv(f.size, 32 * 512);
  }

  // ---------------------------------------------------------------- bytes in place

  function Overlay(sec: seq<byte>, off: nat, bytes: seq<byte>): (r: seq<byte>)
    requires off + |bytes| <= |sec|
    ensures |r| == |sec|
    ensures forall k :: 0 <= k < |sec| ==> r[k] == if off <= k < off + |bytes| then bytes[k - off] else sec[k]
  {
    sec[..off] + bytes + sec[off + |bytes|..]
  }

  /** `put16`: the low sixteen bits, little end first. */
  function Le16(v: nat): (b: seq<byte>)
    ensures |b| == 2
  {
    [v % 0x100, v / 0x100 % 0x100]
  }

  /** `put32` */
  function Le32(v: nat): (b: seq<byte>)
    ensures |b| == 4
  {
    Le16(v % 0x1_0000) + Le16(v / 0x1_0000 % 0x1_0000)
  }

  lemma Le16Decodes(b: seq<byte>, o: nat, v: nat)
    requires o + 2 <= |b| && v < 0x1_0000 && b[o..o + 2] == Le16(v)
    ensures U16(b, o) == v
  {
    assert b[o] == b[o..o + 2][0] && b[o + 1] == b[o..o + 2][1];
  }

  lemma Le32Decodes(b: seq<byte>, o: nat, v: nat)
    requires o + 4 <= |b| && v < 0x1_0000_0000 && b[o..o + 4] == Le32(v)
    ensures U32(b, o) == v
  {
    var lo, hi := v % 0x1_0000, v / 0x1_0000;
    assert b[o..o + 2] == b[o..o + 4][..2] == Le16(lo);
    assert b[o + 2..o + 4] == b[o..o + 4][2..] == Le16(hi);
    Le16Decodes(b, o, lo);
    Le16Decodes(b, o + 2, hi);
  }

  // ---------------------------------------------------------------- boot sectors

  function MbrSector(o: Options): (s: seq<byte>)
    ensures |s| == SECTOR_BYTES
  {
    var s1 := Overlay(Blank(), 510, [0x55, 0xaa]);
    var s2 := Overlay(s1, 446 + 4, [0x0c]);
    var s3 := Overlay(s2, 446 + 8, Le32(o.PartitionOffset()));
    Overlay(s3, 446 + 12, Le32(o.Geo().totSec))
  }

  function Ascii(s: string): (b: seq<byte>)
    ensures |b| == |s|
  {
    seq(|s|, i requires 0 <= i < |s| => (s[i] as int) % 0x100)
  }

  /** The jump and the maker's name. */
  function VbrStart(): (s: seq<byte>)
    ensures |s| == SECTOR_BYTES
    ensures forall k :: 11 <= k < SECTOR_BYTES ==> s[k] == 0
  {
    Overlay(Overlay(Blank(), 0, [0xeb, 0x58, 0x90]), 3, Ascii("MSWIN4.1"))
  }

  /** The boot sector up to the media byte. */
  function VbrHead(o: Options): (s: seq<byte>)
    ensures |s| == SECTOR_BYTES
    ensures forall k :: 22 <= k < SECTOR_BYTES ==> s[k] == 0
  {
    var s3 := Overlay(VbrStart(), 11, Le16(512));
    var s4 := Overlay(s3, 13, [o.secPerClus % 0x100]);
    var s5 := Overlay(s4, 14, Le16(o.rsvdSecCnt));
    var s6 := Overlay(s5, 16, [o.numFats % 0x100]);
    Overlay(s6, 21, [0xf8])
  }

  function VbrSector(o: Options): (s: seq<byte>)
    ensures |s| == SECTOR_BYTES
  {
    var s1 := Overlay(VbrHead(o), 32, Le32(o.Geo().totSec));
    var s2 := Overlay(s1, 36, Le32(o.fatSz32));
    var s3 := Overlay(s2, 44, Le32(o.rootClus));
    var s4 := Overlay(s3, 82, Ascii("FAT32   "));
    Overlay(s4, 510, [0x55, 0xaa])
  }

  /** What the boot sector says to a human or another reader: the jump, the maker's name, a hard disk, FAT32. */
  lemma BootLabels(o: Options)
    requires GoodGeometry(o)
    ensures var s := VbrSector(o);
      && s[..3] == [0xeb, 0x58, 0x90] && s[21] == 0xf8
      && s[3..11] == [0x4d, 0x53, 0x57, 0x49, 0x4e, 0x34, 0x2e, 0x31]
      && s[82..90] == [0x46, 0x41, 0x54, 0x33, 0x32, 0x20, 0x20, 0x20]
  {
    hide LayoutFits, Le16, Le32;
    var h, s := VbrHead(o), VbrSector(o);
    assert s[..22] == h[..22];
    HeadLabels(o);
    assert s[..3] == s[..22][..3] && s[3..11] == s[..22][3..11] && s[21] == s[..22][21];
    assert s[82..90] == Ascii("FAT32   ");
  }

  lemma HeadLabels(o: Options)
    ensures var h := VbrHead(o);
      && h[..22][..3] == [0xeb, 0x58, 0x90] && h[..22][3..11] == [0x4d, 0x53, 0x57, 0x49, 0x4e, 0x34, 0x2e, 0x31]
      && h[..22][21] == 0xf8
  {
    hide Le16, VbrStart;
    StartLabels();
    var h := VbrHead(o);
    assert h[..11] == VbrStart()[..11];
    assert h[..22][..3] == h[..11][..3] && h[..22][3..11] == h[..11][3..];
  }

  lemma StartLabels()
    ensures VbrStart()[..11][..3] == [0xeb, 0x58, 0x90]
    ensures VbrStart()[..11][3..] == [0x4d, 0x53, 0x57, 0x49, 0x4e, 0x34, 0x2e, 0x31]
  {
    MakerName();
    hide Ascii;
    var s, jump := VbrStart(), Overlay(Blank(), 0, [0xeb, 0x58, 0x90]);
    assert jump[..3] == [0xeb, 0x58, 0x90];
    assert s[..3] == jump[..3] && s[3..11] == Ascii("MSWIN4.1");
    assert s[..11][..3] == s[..3] && s[..11][3..] == s[3..11];
  }

  lemma MakerName()
    ensures Ascii("MSWIN4.1") == [0x4d, 0x53, 0x57, 0x49, 0x4e, 0x34, 0x2e, 0x31]
  {
  }

  lemma VbrDecodes(o: Options)
    requires GoodGeometry(o)
    ensures IsFat32Vbr(VbrSector(o))
    ensures Describe(VbrSector(o), o.PartitionOffset()) == o.Geo()
    ensures FieldsOk(VbrSector(o), o.Geo(), o.cardSectors)
  {
    hide Le16, Le32, U16, U32, VbrHead, VbrSector;
    HeadFields(o);
    TailFields(o);
  }

  lemma HeadFields(o: Options)
    requires GoodGeometry(o)
    ensures var s := VbrSector(o);
      && U16(s, 11) == 512 && s[13] == o.secPerClus && U16(s, 14) == o.rsvdSecCnt && s[16] == o.numFats
      && U16(s, 17) == 0 && U16(s, 19) == 0
  {
    hide LayoutFits, Le16, Le32, VbrHead;
    var h, s := VbrHead(o), VbrSector(o);
    HeadBytes(o);
    assert s[..22] == h[..22];
    assert s[11..13] == s[..22][11..13] == h[11..13] && s[14..16] == s[..22][14..16] == h[14..16];
    assert s[13] == s[..22][13] && s[16] == s[..22][16];
    Le16Decodes(s, 11, 512);
    Le16Decodes(s, 14, o.rsvdSecCnt);
    assert s[..22][17] == s[..22][18] == s[..22][19] == s[..22][20] == 0;
  }

  lemma HeadBytes(o: Options)
    requires GoodGeometry(o)
    ensures var h := VbrHead(o);
      && h[11..13] == Le16(512) && h[13] == o.secPerClus && h[14..16] == Le16(o.rsvdSecCnt) && h[16] == o.numFats
      && h[17] == h[18] == h[19] == h[20] == 0
  {
    hide LayoutFits, Le16, VbrStart;
  }

  lemma TailFields(o: Options)
    requires GoodGeometry(o)
    ensures var s := VbrSector(o);
      && U16(s, 22) == 0 && U32(s, 32) == o.Geo().totSec && U32(s, 36) == o.fatSz32
      && U16(s, 40) == 0 && U16(s, 42) == 0 && U32(s, 44) == o.rootClus && s[510] == 0x55 && s[511] == 0xaa
  {
    hide Le16, Le32, VbrHead;
    var s := VbrSector(o);
    assert s[32..36] == Le32(o.Geo().totSec) && s[36..40] == Le32(o.fatSz32) && s[44..48] == Le32(o.rootClus);
    Le32Decodes(s, 32, o.Geo().totSec);
    Le32Decodes(s, 36, o.fatSz32);
    Le32Decodes(s, 44, o.rootClus);
    assert s[22] == s[23] == s[40] == s[41] == s[42] == s[43] == 0;
  }

  lemma MbrDecodes(card: Card, o: Options)
    requires GoodGeometry(o) && o.mbr && card.Count() == o.cardSectors
    ensures !IsFat32Vbr(MbrSector(o)) && Signed(MbrSector(o))
    ensures SlotHolds(card, MbrSector(o), 0, 2048, o.cardSectors)
  {
    hide LayoutFits, Le16, Le32;
    var s := MbrSector(o);
    MbrBytes(o);
    Le32Decodes(s, 454, 2048);
    Le32Decodes(s, 458, o.Geo().totSec);
    hide MbrSector;
  }

  lemma MbrBytes(o: Options)
    requires GoodGeometry(o) && o.mbr
    ensures var s := MbrSector(o);
      && s[11] == s[12] == 0 && s[450] == 0x0c && s[466] == s[482] == s[498] == 0 && s[510] == 0x55 && s[511] == 0xaa
      && s[454..458] == Le32(2048) && s[458..462] == Le32(o.Geo().totSec)
  {
    hide LayoutFits, Le32;
  }

  // ---------------------------------------------------------------- directory entries

  function Zeros(n: nat): (b: seq<byte>)
    ensures |b| == n && forall i :: 0 <= i < n ==> b[i] == 0
  {
    seq(n, _ => 0)
  }

  /** The eleven name bytes: base and extension without the dot. */
  function ShortOf(name: string): string
    requires IsBblName(name)
  {
    name[..8] + name[9..]
  }

  /** A root slot as the builder writes it. */
  function EntryBytes(f: BblFile): (b: seq<byte>)
    requires IsBblName(f.name) && |f.clusters| > 0
    ensures |b| == 32
  {
    Ascii(ShortOf(f.name)) + [0x20] + Zeros(8) + Le16(f.clusters[0] / 0x1_0000 % 0x1_0000)
    + Zeros(4) + Le16(f.clusters[0] % 0x1_0000) + Le32(f.size)
  }

  function ToEntry(f: BblFile): Entry
    requires |f.clusters| > 0
  {
    Entry(f.name, f.size, f.clusters[0])
  }

  /** The directory slot of a log reads back as that log. */
  lemma EntryDecodes(f: BblFile)
    requires IsBblName(f.name) && |f.clusters| > 0 && f.clusters[0] < 0x1000_0000 && f.size < 0x1_0000_0000
    ensures var b := EntryBytes(f);
      !IsEnd(b) && IsBfl(b) && !IsSubdirectory(b) && EntryOf(b) == ToEntry(f)
  {
    hide Le16, Le32, U16, U32;
    var b, short := EntryBytes(f), ShortOf(f.name);
    EntryNumbers(f);
    EntryName11(f);
    assert b[11] == 0x20;
    assert Short(b)[0] == 'B' && b[0] as char == 'B';
    assert NameOf(b) == f.name by {
      assert f.name == short[..8] + "." + short[8..];
    }
  }

  lemma EntryNumbers(f: BblFile)
    requires IsBblName(f.name) && |f.clusters| > 0 && f.clusters[0] < 0x1000_0000 && f.size < 0x1_0000_0000
    ensures U16(EntryBytes(f), 20) * 0x1_0000 + U16(EntryBytes(f), 26) == f.clusters[0]
    ensures U32(EntryBytes(f), 28) == f.size
  {
    hide Le16, Le32, IsBblShort;
    var b := EntryBytes(f);
    assert b[20..22] == Le16(f.clusters[0] / 0x1_0000 % 0x1_0000);
    assert b[26..28] == Le16(f.clusters[0] % 0x1_0000);
    assert b[28..32] == Le32(f.size);
    Le16Decodes(b, 20, f.clusters[0] / 0x1_0000 % 0x1_0000);
    Le16Decodes(b, 26, f.clusters[0] % 0x1_0000);
    Le32Decodes(b, 28, f.size);
  }

  lemma EntryName11(f: BblFile)
    requires IsBblName(f.name) && |f.clusters| > 0
    ensures Short(EntryBytes(f)) == ShortOf(f.name)
  {
    hide Le16, Le32;
    var b, short := EntryBytes(f), ShortOf(f.name);
    BblShortIsAscii(short);
    forall i | 0 <= i < 11 ensures b[i] as char == short[i] {
      assert b[i] == Ascii(short)[i];
    }
  }

  lemma BblShortIsAscii(s: string)
    requires IsBblShort(s)
    ensures forall i :: 0 <= i < 11 ==> (s[i] as int) < 0x80
  {
    assert s[0] == s[..3][0] && s[1] == s[..3][1] && s[2] == s[..3][2];
    assert s[8] == s[8..][0] && s[9] == s[8..][1] && s[10] == s[8..][2];
  }
}
