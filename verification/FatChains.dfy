/** Facts about cluster chains that hold on every card: a walk is determined by its first cluster,
  * and the sectors of an accepted file are distinct, inside the data area and clear of the root. */
module FatChains {
  import opened Bytes
  import opened FatVolume

  // ---------------------------------------------------------------- walks are determined

  lemma {:induction false} PathsAgree(card: Card, g: Geometry, first: nat, p: seq<nat>, q: seq<nat>, i: nat)
    requires Path(card, g, first, p) && Path(card, g, first, q)
    requires i < |p| && i < |q|
    ensures p[i] == q[i]
  {
    if i > 0 {
      PathsAgree(card, g, first, p, q, i - 1);
      assert FatEntry(card, g, p[i - 1]) == Some(p[i]);
    }
  }

  /** No walk from the same cluster is longer than one that reached an end mark. */
  lemma EndMarkedIsLongest(card: Card, g: Geometry, cardSectors: nat, first: nat, p: seq<nat>, q: seq<nat>)
    requires SoundGeometry(g, cardSectors)
    requires Path(card, g, first, p) && EndMarked(card, g, p) && Path(card, g, first, q)
    ensures |q| <= |p| && q == p[..|q|]
  {
    assert |p| < |q| ==> FatEntry(card, g, q[|p| - 1]) == Some(q[|p|]) && g.InRange(q[|p|]);
    if |p| <= |q| { PathsAgree(card, g, first, p, q, |p| - 1); }
    forall i | 0 <= i < |q| ensures p[i] == q[i] { PathsAgree(card, g, first, p, q, i); }
  }

  lemma FileChainIsUnique(card: Card, g: Geometry, cardSectors: nat, root: set<nat>, first: nat, p: seq<nat>,
                          q: seq<nat>)
    requires SoundGeometry(g, cardSectors)
    requires FileChain(card, g, root, first, p) && FileChain(card, g, root, first, q)
    ensures p == q
  {
    EndMarkedIsLongest(card, g, cardSectors, first, p, q);
    EndMarkedIsLongest(card, g, cardSectors, first, q, p);
  }

  /** Two stops of one walk continue alike. */
  lemma {:induction false} WalkRepeats(card: Card, g: Geometry, first: nat, p: seq<nat>, i: nat, j: nat, n: nat)
    requires Path(card, g, first, p)
    requires i <= j && j + n < |p| && p[i] == p[j]
    ensures p[i + n] == p[j + n]
  {
    if n > 0 {
      WalkRepeats(card, g, first, p, i, j, n - 1);
      assert FatEntry(card, g, p[i + n - 1]) == Some(p[i + n]);
      assert FatEntry(card, g, p[j + n - 1]) == Some(p[j + n]);
    }
  }

  /** A walk that ends never meets a cluster twice: the cycle checks only refuse endless walks. */
  lemma EndMarkedIsSimple(card: Card, g: Geometry, cardSectors: nat, first: nat, p: seq<nat>)
    requires SoundGeometry(g, cardSectors)
    requires Path(card, g, first, p) && EndMarked(card, g, p)
    ensures Distinct(p)
  {
    forall i, j | 0 <= i < j < |p| ensures p[i] != p[j] {
      var n := |p| - 1 - j;
      assert FatEntry(card, g, p[i + n]) == Some(p[i + n + 1]) && g.InRange(p[i + n + 1]);
      if p[i] == p[j] {
        WalkRepeats(card, g, first, p, i, j, n);
      }
    }
  }

  // ---------------------------------------------------------------- the sectors of a chain

  lemma {:induction false} SectorsLength(g: Geometry, chain: seq<nat>)
    ensures |Sectors(g, chain)| == |chain| * g.secPerClus
  {
    if chain != [] {
      SectorsLength(g, chain[..|chain| - 1]);
      Distribute(|chain| - 1, 1, g.secPerClus);
    }
  }

  lemma Distribute(a: int, b: int, k: int)
    ensures (a + b) * k == a * k + b * k
  {
  }

  lemma SectorsAppend(g: Geometry, chain: seq<nat>, c: nat)
    ensures Sectors(g, chain + [c]) == Sectors(g, chain) + ClusterSectors(g, c)
  {
    assert (chain + [c])[..|chain|] == chain;
  }

  lemma {:induction false} SectorsPrefix(g: Geometry, chain: seq<nat>, k: nat)
    requires k <= |chain|
    ensures Sectors(g, chain[..k]) <= Sectors(g, chain)
  {
    if k < |chain| {
      SectorsPrefix(g, chain[..|chain| - 1], k);
      assert chain[..|chain| - 1][..k] == chain[..k];
    } else {
      assert chain[..k] == chain;
    }
  }

  lemma NoSectors(g: Geometry, chain: seq<nat>)
    ensures Sectors(g, chain[..0]) == [] && chain[..|chain|] == chain
  {
  }

  /** The sectors cluster `k` contributes. */
  lemma ClusterPart(g: Geometry, chain: seq<nat>, k: nat)
    requires k < |chain|
    ensures |Sectors(g, chain[..k + 1])| == |Sectors(g, chain[..k])| + g.secPerClus <= |Sectors(g, chain)|
    ensures forall i :: |Sectors(g, chain[..k])| <= i < |Sectors(g, chain[..k])| + g.secPerClus ==>
              Sectors(g, chain)[i] == g.ClusterLba(chain[k]) + (i - |Sectors(g, chain[..k])|)
  {
    assert chain[..k + 1] == chain[..k] + [chain[k]];
    SectorsAppend(g, chain[..k], chain[k]);
    SectorsPrefix(g, chain, k + 1);
  }

  lemma ClusterPartSector(g: Geometry, chain: seq<nat>, k: nat, s: nat)
    requires k < |chain| && s < g.secPerClus
    ensures var done := |Sectors(g, chain[..k])|;
      done + s < |Sectors(g, chain)| && Sectors(g, chain)[done + s] == g.ClusterLba(chain[k]) + s
  {
    hide Sectors;
    ClusterPart(g, chain, k);
  }

  lemma ClusterPartLength(g: Geometry, chain: seq<nat>, k: nat)
    requires k < |chain|
    ensures |Sectors(g, chain[..k + 1])| == |Sectors(g, chain[..k])| + g.secPerClus <= |Sectors(g, chain)|
  {
    hide Sectors;
    ClusterPart(g, chain, k);
  }

  /** Sector `i` of a chain is sector `i mod spc` of its cluster number `i div spc`. */
  lemma SectorAt(g: Geometry, chain: seq<nat>, i: nat)
    requires g.secPerClus > 0 && i < |Sectors(g, chain)|
    ensures i / g.secPerClus < |chain|
    ensures Sectors(g, chain)[i] == g.ClusterLba(chain[i / g.secPerClus]) + i % g.secPerClus
  {
    hide Sectors;
    var spc, k := g.secPerClus, i / g.secPerClus;
    SectorsLength(g, chain);
    DivBound(i, |chain|, spc);
    ClusterPart(g, chain, k);
    SectorsLength(g, chain[..k]);
    DivModSplit(i, spc);
  }

  lemma DivModSplit(i: nat, k: nat)
    requires k > 0
    ensures i == (i / k) * k + i % k && 0 <= i % k < k
  {
  }

  lemma DivBound(i: nat, n: nat, k: nat)
    requires k > 0 && i < n * k
    ensures i / k < n
  {
    DivModSplit(i, k);
    if i / k >= n { MulMono(n, i / k, k); }
  }

  lemma SectorsDistinct(g: Geometry, chain: seq<nat>)
    requires g.secPerClus > 0 && Distinct(chain)
    ensures Distinct(Sectors(g, chain))
  {
    hide Sectors;
    var s := Sectors(g, chain);
    forall i, j | 0 <= i < j < |s| ensures s[i] != s[j] { SectorsApart(g, chain, i, j); }
  }

  lemma SectorsApart(g: Geometry, chain: seq<nat>, i: nat, j: nat)
    requires g.secPerClus > 0 && Distinct(chain) && i < j < |Sectors(g, chain)|
    ensures Sectors(g, chain)[i] != Sectors(g, chain)[j]
  {
    hide Sectors;
    var spc := g.secPerClus;
    SectorAt(g, chain, i);
    SectorAt(g, chain, j);
    if i / spc != j / spc {
      DivOrdered(i, j, spc);
      ClustersDisjoint(g, chain[i / spc], chain[j / spc], i % spc, j % spc);
    } else {
      SameQuotient(i, j, spc);
    }
  }

  lemma DivOrdered(i: nat, j: nat, k: nat)
    requires k > 0 && i < j && i / k != j / k
    ensures i / k < j / k
  {
    if i / k > j / k { MulMono(j / k + 1, i / k, k); Distribute(j / k, 1, k); }
  }

  lemma SameQuotient(i: nat, j: nat, k: nat)
    requires k > 0 && i / k == j / k && i != j
    ensures i % k != j % k
  {
    assert i == (i / k) * k + i % k && j == (j / k) * k + j % k;
  }

  /** Every sector of an in-range chain belongs to a cluster of it, inside the data area. */
  lemma SectorOwner(g: Geometry, cardSectors: nat, chain: seq<nat>, i: nat) returns (c: nat, s: nat)
    requires SoundGeometry(g, cardSectors) && i < |Sectors(g, chain)|
    requires forall k :: 0 <= k < |chain| ==> g.InRange(chain[k])
    ensures c in chain && s < g.secPerClus && Sectors(g, chain)[i] == g.ClusterLba(c) + s
    ensures g.FirstDataSector() <= Sectors(g, chain)[i] < g.VolumeEnd() <= cardSectors
  {
    SectorAt(g, chain, i);
    c, s := chain[i / g.secPerClus], i % g.secPerClus;
    ClusterInVolume(g, cardSectors, c);
  }

  // ---------------------------------------------------------------- sizes

  lemma CeilDivBounds(a: nat, b: nat)
    requires b > 0
    ensures a <= CeilDiv(a, b) * b < a + b
  {
    var n := a + b - 1;
    assert n == (n / b) * b + n % b;
  }

  lemma SectorCount(length: nat, n: nat)
    ensures n < CeilDiv(length, 512) <==> n * 512 < length
  {
  }

  /** A chain of ceil(size / clusterBytes) clusters has room for ceil(size / 512) sectors, and its
    * last cluster is needed. */
  lemma ChainCoversFile(spc: nat, size: nat, clusters: nat)
    requires spc > 0 && size > 0 && clusters == CeilDiv(size, spc * 512)
    ensures (clusters - 1) * spc < CeilDiv(size, 512) <= clusters * spc
    ensures clusters > 0
  {
    CeilDivBounds(size, spc * 512);
    CeilDivBounds(size, 512);
    assert clusters * (spc * 512) == (clusters * spc) * 512 by { MulAssoc(clusters, spc, 512); }
    assert (clusters - 1) * (spc * 512) == ((clusters - 1) * spc) * 512 by { MulAssoc(clusters - 1, spc, 512); }
    Distribute(clusters - 1, 1, spc * 512);
  }

  lemma MulAssoc(a: int, b: int, c: int)
    ensures a * (b * c) == (a * b) * c
  {
  }

  predicate InCluster(g: Geometry, c: nat, lba: int) {
    g.ClusterLba(c) <= lba < g.ClusterLba(c) + g.secPerClus
  }

  lemma OneOwner(g: Geometry, c: nat, s: nat, r: nat)
    requires s < g.secPerClus && c != r
    ensures !InCluster(g, r, g.ClusterLba(c) + s)
  {
    if InCluster(g, r, g.ClusterLba(c) + s) {
      ClustersDisjoint(g, c, r, s, g.ClusterLba(c) + s - g.ClusterLba(r));
    }
  }

  // ---------------------------------------------------------------- what an accepted file guarantees

  lemma SectorIsSafe(g: Geometry, cardSectors: nat, root: set<nat>, chain: seq<nat>, i: nat)
    requires SoundGeometry(g, cardSectors) && i < |Sectors(g, chain)|
    requires (forall k :: 0 <= k < |chain| ==> g.InRange(chain[k])) && SetOf(chain) !! root
    ensures g.FirstDataSector() <= Sectors(g, chain)[i] < g.VolumeEnd() <= cardSectors
    ensures forall r :: r in root ==> !InCluster(g, r, Sectors(g, chain)[i])
  {
    var c, s := SectorOwner(g, cardSectors, chain, i);
    assert c in SetOf(chain);
    forall r | r in root ensures !InCluster(g, r, Sectors(g, chain)[i]) {
      OneOwner(g, c, s, r);
    }
  }

  /** The sector list of an accepted file has exactly the sectors its size needs, no sector twice,
    * none in the reserved area, a FAT or beyond the volume, and none of a scanned root cluster. */
  lemma FileSectorsAreSafe(card: Card, g: Geometry, root: set<nat>, first: nat, size: nat, sectors: seq<int>)
    requires SoundGeometry(g, card.Count())
    requires FileSectors(card, g, root, first, size, sectors)
    ensures |sectors| == CeilDiv(size, 512) && Distinct(sectors)
    ensures forall i :: 0 <= i < |sectors| ==> g.FirstDataSector() <= sectors[i] < g.VolumeEnd() <= card.Count()
    ensures forall i, r :: 0 <= i < |sectors| && r in root ==> !InCluster(g, r, sectors[i])
  {
    var chain :| FileHasChain(card, g, root, first, size, chain)
              && |Sectors(g, chain)| >= CeilDiv(size, 512) && sectors == Sectors(g, chain)[..CeilDiv(size, 512)];
    var all := Sectors(g, chain);
    assert Distinct(all) by { SectorsDistinct(g, chain); }
    forall i | 0 <= i < |sectors|
      ensures sectors[i] == all[i] && g.FirstDataSector() <= all[i] < g.VolumeEnd() <= card.Count()
      ensures forall r :: r in root ==> !InCluster(g, r, all[i])
    {
      SectorIsSafe(g, card.Count(), root, chain, i);
    }
  }

  /** A file's sector list is a function of its directory entry. */
  lemma FileSectorsUnique(card: Card, g: Geometry, root: set<nat>, first: nat, size: nat, a: seq<int>, b: seq<int>)
    requires SoundGeometry(g, card.Count())
    requires FileSectors(card, g, root, first, size, a) && FileSectors(card, g, root, first, size, b)
    ensures a == b
  {
    var p :| FileHasChain(card, g, root, first, size, p)
          && |Sectors(g, p)| >= CeilDiv(size, 512) && a == Sectors(g, p)[..CeilDiv(size, 512)];
    var q :| FileHasChain(card, g, root, first, size, q)
          && |Sectors(g, q)| >= CeilDiv(size, 512) && b == Sectors(g, q)[..CeilDiv(size, 512)];
    FileChainIsUnique(card, g, card.Count(), root, first, p, q);
  }

  // ---------------------------------------------------------------- walking a file chain

  /** The head of the walk: `chain` was followed and its last link (or the directory entry) is `cur`. */
  ghost predicate AtLink(card: Card, g: Geometry, root: set<nat>, first: nat, chain: seq<nat>, cur: nat) {
    && (chain == [] ==> cur == first)
    && (chain != [] ==>
          && Path(card, g, first, chain)
          && FatEntry(card, g, chain[|chain| - 1]) == Some(cur) && cur < EOC)
    && Distinct(chain) && SetOf(chain) !! root
  }

  ghost predicate HasFileChain(card: Card, g: Geometry, root: set<nat>, first: nat, length: nat) {
    exists chain: seq<nat> :: |chain| == length && FileChain(card, g, root, first, chain)
  }

  lemma WalkContinues(card: Card, g: Geometry, cardSectors: nat, root: set<nat>, first: nat, chain: seq<nat>,
                      cur: nat, full: seq<nat>)
    requires SoundGeometry(g, cardSectors)
    requires AtLink(card, g, root, first, chain, cur) && FileChain(card, g, root, first, full)
    ensures |chain| < |full| && chain == full[..|chain|] && cur == full[|chain|]
  {
    hide FatEntry, SoundGeometry;
    if chain != [] {
      EndMarkedIsLongest(card, g, cardSectors, first, full, chain);
      if |chain| < |full| { assert FatEntry(card, g, full[|chain| - 1]) == Some(full[|chain|]); }
    }
  }

  /** What every round of the walk checks is needed for the file to have a chain of that length. */
  lemma StepIsNeeded(card: Card, g: Geometry, cardSectors: nat, root: set<nat>, first: nat, chain: seq<nat>, cur: nat,
                     length: nat)
    requires SoundGeometry(g, cardSectors) && AtLink(card, g, root, first, chain, cur)
    ensures HasFileChain(card, g, root, first, length) ==>
              && g.InRange(cur) && cur !in SetOf(chain) && cur !in root && |chain| < length
              && FatEntry(card, g, cur).Some? && (FatEntry(card, g, cur).value >= EOC ==> |chain| + 1 == length)
  {
    hide FatEntry, SoundGeometry;
    if full: seq<nat> :| |full| == length && FileChain(card, g, root, first, full) {
      WalkContinues(card, g, cardSectors, root, first, chain, cur, full);
      assert full[|chain|] in SetOf(full);
      if |chain| + 1 < length {
        NotEndMarked(card, g, cardSectors, first, full, |chain|);
      }
    }
  }

  lemma NotEndMarked(card: Card, g: Geometry, cardSectors: nat, first: nat, p: seq<nat>, i: nat)
    requires SoundGeometry(g, cardSectors) && Path(card, g, first, p) && i + 1 < |p|
    ensures FatEntry(card, g, p[i]) == Some(p[i + 1]) && p[i + 1] < EOC
  {
    assert g.InRange(p[i + 1]);
  }

  /** The chain with one more cluster. */
  lemma StepKeepsWalk(card: Card, g: Geometry, root: set<nat>, first: nat, chain: seq<nat>, cur: nat)
    requires AtLink(card, g, root, first, chain, cur)
    requires g.InRange(cur) && cur !in chain && cur !in root
    ensures Path(card, g, first, chain + [cur]) && Distinct(chain + [cur]) && SetOf(chain + [cur]) !! root
    ensures SetOf(chain + [cur]) == SetOf(chain) + {cur}
  {
    hide FatEntry;
  }

  /** The walk starts at the first cluster. */
  lemma WalkStarts(card: Card, g: Geometry, root: set<nat>, first: nat)
    ensures AtLink(card, g, root, first, [], first) && SetOf<nat>([]) == {}
  {
  }

  /** A cluster that passes the checks extends the walk, or completes the chain. */
  lemma WalkOn(card: Card, g: Geometry, root: set<nat>, first: nat, chain: seq<nat>, cur: nat)
    requires AtLink(card, g, root, first, chain, cur)
    requires g.InRange(cur) && cur !in SetOf(chain) && cur !in root
    ensures SetOf(chain + [cur]) == SetOf(chain) + {cur}
    ensures var next := FatEntry(card, g, cur);
      && (next.Some? && next.value < EOC ==> AtLink(card, g, root, first, chain + [cur], next.value))
      && (next.Some? && next.value >= EOC ==> FileChain(card, g, root, first, chain + [cur]))
  {
    hide FatEntry, Path;
    StepKeepsWalk(card, g, root, first, chain, cur);
  }

  lemma ChainFound(card: Card, g: Geometry, root: set<nat>, first: nat, length: nat, chain: seq<nat>)
    requires |chain| == length && FileChain(card, g, root, first, chain)
    ensures HasFileChain(card, g, root, first, length)
  {
  }
}
