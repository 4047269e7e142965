/** The root directory of a mounted volume: its 32-byte slots, the Blackbox names among them, and
  * what a complete scan of the root chain has to see. */
module FatDirectory {
  import opened Bytes
  import opened FatVolume
  import opened FatChains
  import opened Digits

  type DirSlot = s: seq<byte> | |s| == 32 witness seq(32, _ => 0)

  /** `Fat32BblEntry`. */
  datatype Entry = Entry(name: string, size: nat, firstCluster: nat)

  predicate IsEnd(slot: DirSlot) { slot[0] == 0x00 }

  /** `/^BFL[0-9]{5}BBL$/` on the eleven name bytes. */
  predicate IsBblShort(s: string) {
    && |s| == 11
    && s[..3] == "BFL"
    && (forall i :: 3 <= i < 8 ==> IsDigit(s[i]))
    && s[8..] == "BBL"
  }

  function Short(slot: DirSlot): string {
    seq(11, i requires 0 <= i < 11 => slot[i] as char)
  }

  function DottedName(short: string): string
    requires |short| == 11
  {
    short[..8] + "." + short[8..]
  }

  /** A slot that names a log: not deleted, not a long-name part, not a volume label. */
  predicate IsBfl(slot: DirSlot) {
    slot[0] != 0xe5 && slot[11] != 0x0f && !Bit(slot[11], 0x08) && IsBblShort(Short(slot))
  }

  predicate IsSubdirectory(slot: DirSlot) { Bit(slot[11], 0x10) }

  function NameOf(slot: DirSlot): string { DottedName(Short(slot)) }

  function EntryOf(slot: DirSlot): Entry {
    Entry(NameOf(slot), U32(slot, 28), U16(slot, 20) * 0x1_0000 + U16(slot, 26))
  }

  // ---------------------------------------------------------------- slots of a list of sectors

  function SectorSlots(sec: seq<byte>): (slots: seq<DirSlot>)
    requires |sec| == SECTOR_BYTES
    ensures |slots| == 16
  {
    seq(16, e requires 0 <= e < 16 => sec[e * 32..e * 32 + 32])
  }

  predicate AllReadable(card: Card, lbas: seq<int>) {
    forall i :: 0 <= i < |lbas| ==> Readable(card, lbas[i])
  }

  function SlotsOf(card: Card, lbas: seq<int>): (slots: seq<DirSlot>)
    requires AllReadable(card, lbas)
    ensures |slots| == 16 * |lbas|
  {
    if lbas == [] then []
    else SlotsOf(card, lbas[..|lbas| - 1]) + SectorSlots(card.Read(lbas[|lbas| - 1]))
  }

  lemma {:induction false} SlotsOfPrefix(card: Card, lbas: seq<int>, k: nat)
    requires AllReadable(card, lbas) && k <= |lbas|
    ensures SlotsOf(card, lbas[..k]) <= SlotsOf(card, lbas)
  {
    if k < |lbas| {
      SlotsOfPrefix(card, lbas[..|lbas| - 1], k);
      assert lbas[..|lbas| - 1][..k] == lbas[..k];
    } else {
      assert lbas[..k] == lbas;
    }
  }

  // ---------------------------------------------------------------- the logs among the slots

  /** Logs in directory order. */
  function BflFiles(slots: seq<DirSlot>): seq<Entry> {
    if slots == [] then []
    else
      var last := slots[|slots| - 1];
      BflFiles(slots[..|slots| - 1]) + if IsBfl(last) && !IsSubdirectory(last) then [EntryOf(last)] else []
  }

  /** Log-named subdirectories in directory order. */
  function BflDirs(slots: seq<DirSlot>): seq<string> {
    if slots == [] then []
    else
      var last := slots[|slots| - 1];
      BflDirs(slots[..|slots| - 1]) + if IsBfl(last) && IsSubdirectory(last) then [NameOf(last)] else []
  }

  /** No log name is used twice, by files or subdirectories. */
  predicate UniqueNames(slots: seq<DirSlot>) {
    forall i, j :: 0 <= i < j < |slots| && IsBfl(slots[i]) && IsBfl(slots[j]) ==> NameOf(slots[i]) != NameOf(slots[j])
  }

  lemma BflAppend(slots: seq<DirSlot>, x: DirSlot)
    ensures BflFiles(slots + [x]) == BflFiles(slots) + if IsBfl(x) && !IsSubdirectory(x) then [EntryOf(x)] else []
    ensures BflDirs(slots + [x]) == BflDirs(slots) + if IsBfl(x) && IsSubdirectory(x) then [NameOf(x)] else []
    ensures !IsBfl(x) ==> BflFiles(slots + [x]) == BflFiles(slots) && BflDirs(slots + [x]) == BflDirs(slots)
    ensures IsBfl(x) && IsSubdirectory(x) ==> BflFiles(slots + [x]) == BflFiles(slots)
    ensures IsBfl(x) && !IsSubdirectory(x) ==> BflDirs(slots + [x]) == BflDirs(slots)
  {
    assert (slots + [x])[..|slots|] == slots;
  }

  /** Filtering keeps exactly the matching slots. */
  lemma {:induction false} FilesComeFromSlots(slots: seq<DirSlot>, e: Entry)
    ensures e in BflFiles(slots) <==>
              exists k :: 0 <= k < |slots| && IsBfl(slots[k]) && !IsSubdirectory(slots[k]) && e == EntryOf(slots[k])
  {
    if slots != [] {
      var front := slots[..|slots| - 1];
      FilesComeFromSlots(front, e);
      assert slots == front + [slots[|slots| - 1]];
    }
  }

  lemma {:induction false} DirsComeFromSlots(slots: seq<DirSlot>, n: string)
    ensures n in BflDirs(slots) <==>
              exists k :: 0 <= k < |slots| && IsBfl(slots[k]) && IsSubdirectory(slots[k]) && n == NameOf(slots[k])
  {
    if slots != [] {
      var front := slots[..|slots| - 1];
      DirsComeFromSlots(front, n);
      assert slots == front + [slots[|slots| - 1]];
    }
  }

  predicate Has(found: seq<Entry>, name: string) {
    exists i :: 0 <= i < |found| && found[i].name == name
  }

  /** A name was seen exactly when one of the two result collections holds it. */
  lemma SeenNames(slots: seq<DirSlot>, n: string)
    ensures (Has(BflFiles(slots), n) || n in BflDirs(slots))
       <==> exists k :: 0 <= k < |slots| && IsBfl(slots[k]) && n == NameOf(slots[k])
  {
    DirsComeFromSlots(slots, n);
    if Has(BflFiles(slots), n) {
      var i :| 0 <= i < |BflFiles(slots)| && BflFiles(slots)[i].name == n;
      FilesComeFromSlots(slots, BflFiles(slots)[i]);
    }
    if k :| 0 <= k < |slots| && IsBfl(slots[k]) && n == NameOf(slots[k]) {
      FilesComeFromSlots(slots, EntryOf(slots[k]));
      if !IsSubdirectory(slots[k]) {
        var i :| 0 <= i < |BflFiles(slots)| && BflFiles(slots)[i] == EntryOf(slots[k]);
        assert BflFiles(slots)[i].name == n;
      }
    }
  }

  // ---------------------------------------------------------------- a complete scan

  predicate RootLinkOk(card: Card, g: Geometry, c: nat) {
    var e := FatEntry(card, g, c);
    e.Some? && (e.value >= EOC || 2 <= e.value < Min(g.CountOfClusters() + 2, 0x0fff_fff0))
  }

  /** The clusters of `chain` may be walked as root directory clusters. */
  ghost predicate RootPath(card: Card, g: Geometry, chain: seq<nat>) {
    && Path(card, g, g.rootClus, chain)
    && Distinct(chain)
    && (forall i :: 0 <= i < |chain| ==> RootLinkOk(card, g, chain[i]))
  }

  /** The first `n` sectors of the root chain were read and `slots` are the slots in front of the
    * end marker: either a 0x00 slot in the last of these sectors, or the end of the chain. */
  ghost predicate Scan(card: Card, g: Geometry, chain: seq<nat>, n: nat, slots: seq<DirSlot>) {
    && RootPath(card, g, chain)
    && n <= |Sectors(g, chain)| && n <= ROOT_SCAN_SECTORS
    && AllReadable(card, Sectors(g, chain)[..n])
    && slots <= SlotsOf(card, Sectors(g, chain)[..n])
    && (forall i :: 0 <= i < |slots| ==> !IsEnd(slots[i]))
    && if |slots| < 16 * n
       then CutByEndSlot(card, g, chain, n, |slots|)
       else n == |Sectors(g, chain)| && EndMarked(card, g, chain)
  }

  ghost predicate CutByEndSlot(card: Card, g: Geometry, chain: seq<nat>, n: nat, stop: nat)
    requires |chain| > 0 && n <= |Sectors(g, chain)| && AllReadable(card, Sectors(g, chain)[..n])
    requires stop < 16 * n
  {
    && IsEnd(SlotsOf(card, Sectors(g, chain)[..n])[stop])
    && 16 * (n - 1) <= stop
    && |Sectors(g, chain[..|chain| - 1])| < n
  }

  /** A scan in progress: the same, with no end marker met so far. */
  ghost predicate Scanning(card: Card, g: Geometry, chain: seq<nat>, n: nat, slots: seq<DirSlot>) {
    && RootPath(card, g, chain)
    && |Sectors(g, chain[..|chain| - 1])| <= n <= |Sectors(g, chain)| && n <= ROOT_SCAN_SECTORS
    && AllReadable(card, Sectors(g, chain)[..n])
    && slots == SlotsOf(card, Sectors(g, chain)[..n])
    && (forall i :: 0 <= i < |slots| ==> !IsEnd(slots[i]))
  }

  // ---------------------------------------------------------------- scans are determined

  lemma ChainPrefix(card: Card, g: Geometry, p: seq<nat>, q: seq<nat>)
    requires RootPath(card, g, p) && RootPath(card, g, q) && |p| <= |q|
    ensures p == q[..|p|] && Sectors(g, p) <= Sectors(g, q)
  {
    forall i | 0 <= i < |p| ensures p[i] == q[i] { PathsAgree(card, g, g.rootClus, p, q, i); }
    assert q[..|p|] == p;
    SectorsPrefix(g, q, |p|);
  }

  /** Slots read from a shorter list of the same sectors come first. */
  lemma SlotsAgree(card: Card, a: seq<int>, b: seq<int>, m: nat, n: nat)
    requires a <= b && m <= n && m <= |a| && n <= |b|
    requires AllReadable(card, a[..m]) && AllReadable(card, b[..n])
    ensures SlotsOf(card, a[..m]) <= SlotsOf(card, b[..n])
  {
    assert b[..n][..m] == a[..m];
    SlotsOfPrefix(card, b[..n], m);
  }

  /** A finished scan does not stop in a cluster that a scan in progress has already passed. */
  lemma ScanReachesCluster(card: Card, g: Geometry, cardSectors: nat, chain: seq<nat>, n: nat, slots: seq<DirSlot>,
                           done: seq<nat>, m: nat, all: seq<DirSlot>)
    requires SoundGeometry(g, cardSectors)
    requires Scanning(card, g, chain, n, slots) && Scan(card, g, done, m, all)
    ensures |chain| <= |done|
  {
    hide Readable, FatEntry;
    if |done| < |chain| {
      ChainPrefix(card, g, done, chain);
      var front := chain[..|chain| - 1];
      assert front[..|done|] == done;
      SectorsPrefix(g, front, |done|);
      SlotsAgree(card, Sectors(g, done), Sectors(g, chain), m, n);
      PassedLink(card, g, chain, |done| - 1);
    }
  }

  lemma PassedLink(card: Card, g: Geometry, chain: seq<nat>, i: nat)
    requires RootPath(card, g, chain) && i < |chain| - 1
    requires g.CountOfClusters() <= 0x0fff_ffed
    ensures FatEntry(card, g, chain[i]) == Some(chain[i + 1]) && chain[i + 1] < EOC
  {
    assert g.InRange(chain[i + 1]);
  }

  /** Whatever a scan in progress has seen is a beginning of every finished scan of that card, and
    * the finished scan goes further wherever the one in progress cannot stop. */
  lemma ScanContinues(card: Card, g: Geometry, cardSectors: nat, chain: seq<nat>, n: nat, slots: seq<DirSlot>,
                      done: seq<nat>, m: nat, all: seq<DirSlot>)
    requires SoundGeometry(g, cardSectors)
    requires Scanning(card, g, chain, n, slots) && Scan(card, g, done, m, all)
    ensures chain == done[..Min(|chain|, |done|)] && slots <= all && n <= m
    ensures n < |Sectors(g, chain)| ==> n < m
    ensures n == |Sectors(g, chain)| && !EndMarked(card, g, chain) ==> |chain| < |done|
  {
    hide Readable, FatEntry;
    ScanReachesCluster(card, g, cardSectors, chain, n, slots, done, m, all);
    ChainPrefix(card, g, chain, done);
    NotPastScan(card, g, chain, n, done, m, all);
    SlotsAgree(card, Sectors(g, chain), Sectors(g, done), n, m);
    if |chain| == |done| { assert chain == done; }
  }

  /** Sectors without an end marker do not reach past a scan that was cut by one. */
  lemma NotPastScan(card: Card, g: Geometry, chain: seq<nat>, n: nat, done: seq<nat>, m: nat, all: seq<DirSlot>)
    requires Scan(card, g, done, m, all) && Sectors(g, chain) <= Sectors(g, done)
    requires n <= |Sectors(g, chain)| && AllReadable(card, Sectors(g, chain)[..n])
    requires forall i :: 0 <= i < |SlotsOf(card, Sectors(g, chain)[..n])| ==>
        !IsEnd(SlotsOf(card, Sectors(g, chain)[..n])[i])
    ensures n <= m
  {
    hide Readable, FatEntry, RootPath, EndMarked, Sectors;
    if m <= n {
      var a, b := Sectors(g, done), Sectors(g, chain);
      assert a[..m][..m] == a[..m];
      SlotsAgree(card, a[..m], b, m, n);
    }
  }

  /** The slots of the last sectors when a finished scan is rewound to just before its last sector. */
  lemma Rewind(card: Card, g: Geometry, chain: seq<nat>, n: nat, slots: seq<DirSlot>)
    requires Scan(card, g, chain, n, slots) && |slots| < 16 * n
    ensures AllReadable(card, Sectors(g, chain)[..n - 1])
    ensures Scanning(card, g, chain, n - 1, SlotsOf(card, Sectors(g, chain)[..n - 1]))
  {
    hide Readable, FatEntry, Sectors, RootPath;
    var s := Sectors(g, chain);
    assert forall i :: 0 <= i < n - 1 ==> s[..n - 1][i] == s[..n][i];
    SlotsAgree(card, s, s, n - 1, n);
  }

  /** A finished scan stops at the first end marker, so it keeps everything that comes before one. */
  lemma StopsAtFirstEnd(card: Card, g: Geometry, done: seq<nat>, m: nat, all: seq<DirSlot>, seen: seq<DirSlot>)
    requires Scan(card, g, done, m, all)
    requires seen <= SlotsOf(card, Sectors(g, done)[..m]) && forall i :: 0 <= i < |seen| ==> !IsEnd(seen[i])
    ensures seen <= all
  {
    hide FatEntry, Readable, RootPath;
  }

  lemma ScanNotShorter(card: Card, g: Geometry, cardSectors: nat, chain: seq<nat>, n: nat, slots: seq<DirSlot>,
                       done: seq<nat>, m: nat, all: seq<DirSlot>)
    requires SoundGeometry(g, cardSectors)
    requires Scan(card, g, chain, n, slots) && Scan(card, g, done, m, all)
    ensures |chain| <= |done| && chain == done[..|chain|] && n <= m && slots <= all
  {
    if |slots| < 16 * n {
      CutNotShorter(card, g, cardSectors, chain, n, slots, done, m, all);
    } else {
      WholeScan(card, g, chain, n, slots);
      hide Readable, FatEntry, AllReadable, CutByEndSlot, Scan, Scanning, EndMarked, RootPath, SoundGeometry;
      ScanContinues(card, g, cardSectors, chain, n, slots, done, m, all);
    }
  }

  /** A scan that no end marker cut has read every sector of its chain. */
  lemma WholeScan(card: Card, g: Geometry, chain: seq<nat>, n: nat, slots: seq<DirSlot>)
    requires Scan(card, g, chain, n, slots) && |slots| >= 16 * n
    ensures Scanning(card, g, chain, n, slots) && n == |Sectors(g, chain)| && EndMarked(card, g, chain)
  {
    hide Readable, FatEntry, AllReadable, CutByEndSlot;
    SectorsPrefix(g, chain, |chain| - 1);
  }

  lemma CutNotShorter(card: Card, g: Geometry, cardSectors: nat, chain: seq<nat>, n: nat, slots: seq<DirSlot>,
                      done: seq<nat>, m: nat, all: seq<DirSlot>)
    requires SoundGeometry(g, cardSectors) && |slots| < 16 * n
    requires Scan(card, g, chain, n, slots) && Scan(card, g, done, m, all)
    ensures |chain| <= |done| && chain == done[..|chain|] && n <= m && slots <= all
  {
    hide Readable, FatEntry, AllReadable, CutByEndSlot, SlotsOf, EndMarked, SoundGeometry, RootPath, Sectors, Scanning;
    Rewind(card, g, chain, n, slots);
    ScanContinues(card, g, cardSectors, chain, n - 1, SlotsOf(card, Sectors(g, chain)[..n - 1]), done, m, all);
    ChainPrefix(card, g, chain, done);
    SlotsAgree(card, Sectors(g, chain), Sectors(g, done), n, m);
    StopsAtFirstEnd(card, g, done, m, all, slots);
  }

  /** A card has one complete root scan. */
  lemma ScanIsUnique(card: Card, g: Geometry, cardSectors: nat, chain: seq<nat>, n: nat, slots: seq<DirSlot>,
                     chain': seq<nat>, n': nat, slots': seq<DirSlot>)
    requires SoundGeometry(g, cardSectors)
    requires Scan(card, g, chain, n, slots) && Scan(card, g, chain', n', slots')
    ensures chain == chain' && n == n' && slots == slots'
  {
    ScanNotShorter(card, g, cardSectors, chain, n, slots, chain', n', slots');
    ScanNotShorter(card, g, cardSectors, chain', n', slots', chain, n, slots);
  }

  // ---------------------------------------------------------------- when a listing is refused

  /** Some complete root scan finds no log name twice. */
  ghost predicate Listable(card: Card, g: Geometry) {
    exists chain, n, slots :: Scan(card, g, chain, n, slots) && UniqueNames(slots)
  }

  /** Some root scan completes. */
  ghost predicate Scannable(card: Card, g: Geometry) {
    exists chain, n, slots :: Scan(card, g, chain, n, slots)
  }

  lemma ListableScans(card: Card, g: Geometry)
    ensures Listable(card, g) ==> Scannable(card, g)
  {
  }

  /** The first `16 * n + j` slots of the chain, all in front of any end marker. */
  ghost predicate SeenSlots(card: Card, g: Geometry, chain: seq<nat>, n: nat, slots: seq<DirSlot>, sec: seq<byte>,
                            j: nat)
  {
    && Scanning(card, g, chain, n, slots)
    && n < |Sectors(g, chain)|
    && Readable(card, Sectors(g, chain)[n]) && sec == card.Read(Sectors(g, chain)[n])
    && j <= 16
    && (forall i :: 0 <= i < j ==> !IsEnd(SectorSlots(sec)[i]))
  }

  /** With sectors of the chain left to read, a finished scan reads the next one. */
  lemma ScanReadsNext(card: Card, g: Geometry, chain: seq<nat>, n: nat, slots: seq<DirSlot>,
                      done: seq<nat>, m: nat, all: seq<DirSlot>)
    requires SoundGeometry(g, card.Count())
    requires Scanning(card, g, chain, n, slots) && n < |Sectors(g, chain)| && Scan(card, g, done, m, all)
    ensures n < m <= ROOT_SCAN_SECTORS && Readable(card, Sectors(g, chain)[n])
    ensures Sectors(g, chain) <= Sectors(g, done) && slots <= all
  {
    hide FatEntry, Readable;
    ScanContinues(card, g, card.Count(), chain, n, slots, done, m, all);
    ChainPrefix(card, g, chain, done);
    assert Sectors(g, done)[..m][n] == Sectors(g, chain)[n];
  }

  lemma NextSectorIsNeeded(card: Card, g: Geometry, chain: seq<nat>, n: nat, slots: seq<DirSlot>)
    requires SoundGeometry(g, card.Count())
    requires Scanning(card, g, chain, n, slots) && n < |Sectors(g, chain)|
    ensures Scannable(card, g) ==> n < ROOT_SCAN_SECTORS && Readable(card, Sectors(g, chain)[n])
  {
    hide FatEntry, Readable, Scan, Scanning, SoundGeometry;
    if done, m, all :| Scan(card, g, done, m, all) {
      ScanReadsNext(card, g, chain, n, slots, done, m, all);
    }
  }

  lemma SlotsStep(card: Card, s: seq<int>, n: nat)
    requires n < |s| && AllReadable(card, s[..n]) && Readable(card, s[n])
    ensures AllReadable(card, s[..n + 1])
    ensures SlotsOf(card, s[..n + 1]) == SlotsOf(card, s[..n]) + SectorSlots(card.Read(s[n]))
  {
    assert s[..n + 1][..n] == s[..n];
  }

  /** What was seen is a beginning of every finished scan. */
  lemma SeenIsPrefix(card: Card, g: Geometry, chain: seq<nat>, n: nat, slots: seq<DirSlot>, sec: seq<byte>, j: nat,
                     done: seq<nat>, m: nat, all: seq<DirSlot>)
    requires SoundGeometry(g, card.Count())
    requires SeenSlots(card, g, chain, n, slots, sec, j) && Scan(card, g, done, m, all)
    ensures slots + SectorSlots(sec)[..j] <= all
  {
    hide FatEntry, SoundGeometry, RootPath, EndMarked, SectorSlots, Sectors, CutByEndSlot;
    ScanReadsNext(card, g, chain, n, slots, done, m, all);
    var s := Sectors(g, done);
    assert s[n] == Sectors(g, chain)[n] && s[..n] == Sectors(g, chain)[..n];
    SlotsStep(card, s, n);
    SlotsAgree(card, s, s, n + 1, m);
    StopsAtFirstEnd(card, g, done, m, all, slots + SectorSlots(sec)[..j]);
  }

  /** So a repeated name among the slots seen rules out any listing. */
  lemma RepeatedNameRefuses(card: Card, g: Geometry, chain: seq<nat>, n: nat, slots: seq<DirSlot>, sec: seq<byte>,
                            j: nat)
    requires SoundGeometry(g, card.Count())
    requires SeenSlots(card, g, chain, n, slots, sec, j)
    requires !UniqueNames(slots + SectorSlots(sec)[..j])
    ensures !Listable(card, g)
  {
    var seen := slots + SectorSlots(sec)[..j];
    forall done, m, all | Scan(card, g, done, m, all) ensures !UniqueNames(all) {
      SeenIsPrefix(card, g, chain, n, slots, sec, j, done, m, all);
      UniquePrefix(seen, all);
    }
  }

  lemma UniquePrefix(seen: seq<DirSlot>, all: seq<DirSlot>)
    requires seen <= all
    ensures UniqueNames(all) ==> UniqueNames(seen)
  {
  }

  /** A scan in progress that has read a whole sector without an end marker. */
  lemma SectorPassed(card: Card, g: Geometry, chain: seq<nat>, n: nat, slots: seq<DirSlot>, sec: seq<byte>)
    requires SeenSlots(card, g, chain, n, slots, sec, 16) && n < ROOT_SCAN_SECTORS
    ensures Scanning(card, g, chain, n + 1, slots + SectorSlots(sec))
  {
    SlotsStep(card, Sectors(g, chain), n);
  }

  /** A scan in progress that meets an end marker is finished. */
  lemma SectorEnds(card: Card, g: Geometry, chain: seq<nat>, n: nat, slots: seq<DirSlot>, sec: seq<byte>, j: nat)
    requires SeenSlots(card, g, chain, n, slots, sec, j) && n < ROOT_SCAN_SECTORS
    requires j < 16 && IsEnd(SectorSlots(sec)[j])
    ensures Scan(card, g, chain, n + 1, slots + SectorSlots(sec)[..j])
  {
    SlotsStep(card, Sectors(g, chain), n);
    assert (slots + SectorSlots(sec))[16 * n + j] == SectorSlots(sec)[j];
  }

  /** A scan in progress that has read all clusters of an end-marked chain is finished. */
  lemma ChainEnds(card: Card, g: Geometry, chain: seq<nat>, n: nat, slots: seq<DirSlot>)
    requires Scanning(card, g, chain, n, slots) && n == |Sectors(g, chain)| && EndMarked(card, g, chain)
    ensures Scan(card, g, chain, n, slots)
  {
  }

  /** Where the chain goes on, a finished scan visits the next cluster; it is new and well linked. */
  lemma NextClusterIsNeeded(card: Card, g: Geometry, chain: seq<nat>, n: nat, slots: seq<DirSlot>, next: nat)
    requires SoundGeometry(g, card.Count())
    requires Scanning(card, g, chain, n, slots) && n == |Sectors(g, chain)|
    requires FatEntry(card, g, chain[|chain| - 1]) == Some(next) && next < EOC
    ensures Scannable(card, g) ==> next !in chain && RootLinkOk(card, g, next) && g.InRange(next)
  {
    if done, m, all :| Scan(card, g, done, m, all) {
      ScanContinues(card, g, card.Count(), chain, n, slots, done, m, all);
      assert done[|chain|] == next;
    }
  }

  /** The next cluster opens with nothing of it read. */
  lemma OpenCluster(card: Card, g: Geometry, chain: seq<nat>, n: nat, slots: seq<DirSlot>, next: nat)
    requires Scanning(card, g, chain, n, slots) && n == |Sectors(g, chain)|
    requires FatEntry(card, g, chain[|chain| - 1]) == Some(next)
    requires next !in chain && RootLinkOk(card, g, next) && g.InRange(next)
    ensures Scanning(card, g, chain + [next], n, slots)
  {
    hide FatEntry, Readable, SlotsOf, Sectors;
    SectorsAppend(g, chain, next);
    assert (chain + [next])[..|chain|] == chain;
    assert Sectors(g, chain + [next])[..n] == Sectors(g, chain)[..n];
  }

  lemma OpenRoot(card: Card, g: Geometry)
    requires SoundGeometry(g, card.Count())
    ensures RootLinkOk(card, g, g.rootClus) ==> Scanning(card, g, [g.rootClus], 0, [])
    ensures Scannable(card, g) ==> RootLinkOk(card, g, g.rootClus)
  {
    assert Sectors(g, [g.rootClus][..0]) == [];
    if done, m, all :| Scan(card, g, done, m, all) {
      assert done[0] == g.rootClus;
    }
  }

  // ---------------------------------------------------------------- the cluster loop

  /** The clusters a walk can visit. */
  ghost function Clusters(g: Geometry): set<nat> {
    set c: nat | c < g.CountOfClusters() + 2 && g.InRange(c)
  }

  /** The head of the cluster loop: everything before `cur` was scanned without meeting an end. */
  ghost predicate AtCluster(card: Card, g: Geometry, chain: seq<nat>, n: nat, slots: seq<DirSlot>, cur: nat) {
    if chain == [] then cur == g.rootClus && n == 0 && slots == []
    else
      && Scanning(card, g, chain, n, slots) && n == |Sectors(g, chain)|
      && FatEntry(card, g, chain[|chain| - 1]) == Some(cur) && cur < EOC
  }

  /** The loop starts at the root cluster and goes on at the link out of a scanned cluster. */
  lemma AtRoot(card: Card, g: Geometry)
    ensures AtCluster(card, g, [], 0, [], g.rootClus) && SetOf<nat>([]) == {}
  {
  }

  lemma AtNextCluster(card: Card, g: Geometry, chain: seq<nat>, n: nat, slots: seq<DirSlot>, next: nat)
    requires Scanning(card, g, chain, n, slots) && n == |Sectors(g, chain)|
    requires FatEntry(card, g, chain[|chain| - 1]) == Some(next) && next < EOC
    ensures AtCluster(card, g, chain, n, slots, next)
  {
  }

  lemma ClusterIsNeeded(card: Card, g: Geometry, chain: seq<nat>, n: nat, slots: seq<DirSlot>, cur: nat)
    requires SoundGeometry(g, card.Count()) && AtCluster(card, g, chain, n, slots, cur)
    ensures Scannable(card, g) ==> cur !in SetOf(chain) && RootLinkOk(card, g, cur)
  {
    hide Scannable, SoundGeometry, Scanning, FatEntry;
    if chain == [] { OpenRoot(card, g); } else { NextClusterIsNeeded(card, g, chain, n, slots, cur); }
  }

  lemma ClusterOpens(card: Card, g: Geometry, chain: seq<nat>, n: nat, slots: seq<DirSlot>, cur: nat)
    requires SoundGeometry(g, card.Count()) && AtCluster(card, g, chain, n, slots, cur)
    requires cur !in SetOf(chain) && RootLinkOk(card, g, cur)
    ensures Scanning(card, g, chain + [cur], n, slots)
    ensures (chain + [cur])[..|chain|] == chain && n == |Sectors(g, chain)|
    ensures cur in Clusters(g) && SetOf(chain + [cur]) == SetOf(chain) + {cur}
  {
    hide Scannable, SoundGeometry, Scanning;
    if chain == [] {
      OpenRoot(card, g);
      assert chain + [cur] == [cur];
    } else {
      OpenCluster(card, g, chain, n, slots, cur);
    }
  }

  /** Sector `s` of the cluster being scanned. */
  lemma ClusterSector(card: Card, g: Geometry, chain: seq<nat>, n: nat, s: nat)
    requires chain != [] && n == |Sectors(g, chain[..|chain| - 1])| && s < g.secPerClus
    ensures n + s < |Sectors(g, chain)| && Sectors(g, chain)[n + s] == g.ClusterLba(chain[|chain| - 1]) + s
  {
  }

  lemma ClusterDone(card: Card, g: Geometry, chain: seq<nat>, n: nat)
    requires chain != [] && n == |Sectors(g, chain[..|chain| - 1])|
    ensures |Sectors(g, chain)| == n + g.secPerClus
  {
  }

  lemma InRangeLast(card: Card, g: Geometry, chain: seq<nat>, n: nat, slots: seq<DirSlot>)
    requires Scanning(card, g, chain, n, slots)
    ensures g.InRange(chain[|chain| - 1])
  {
  }
}
