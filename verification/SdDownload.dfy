/** The whole path of a log: written to a card, found by the FAT32 reader, asked for sector by sector
  * over the command line, sent in 64-character packets, collected, parsed and put together again. */
module SdDownload {
  import opened Bytes
  import opened FatVolume
  import opened FatChains
  import opened FatDirectory
  import opened NameOrder
  import opened FatRootReader
  import opened CardImage
  import opened SparseCard
  import opened CardRoundTrip
  import opened CliFraming
  import opened Collector
  import Crc32
  import opened SdRead
  import opened SdFirmware
  import SdSession

  const PACKET: nat := 64

  /** `emitData`: the text cut into packets. */
  function Packets(text: string): seq<string> {
    if text == "" then []
    else if |text| <= PACKET then [text]
    else [text[..PACKET]] + Packets(text[PACKET..])
  }

  lemma {:induction false} ConcatAppend(a: seq<string>, b: seq<string>)
    ensures Concat(a + b) == Concat(a) + Concat(b)
  {
    if b == [] {
      assert a + b == a;
    } else {
      ConcatAppend(a, b[..|b| - 1]);
      assert (a + b)[..|a + b| - 1] == a + b[..|b| - 1];
    }
  }

  /** Together the packets are the text, each but the last is 64 characters long, and none is empty. */
  lemma {:induction false} PacketsWhole(text: string)
    ensures Concat(Packets(text)) == text
    ensures forall i :: 0 <= i < |Packets(text)| ==>
              0 < |Packets(text)[i]| <= 64 && (i < |Packets(text)| - 1 ==> |Packets(text)[i]| == 64)
  {
    if text != "" {
      OneConcat(text);
      if |text| > PACKET {
        OneConcat(text[..PACKET]);
        PacketsWhole(text[PACKET..]);
        ConcatAppend([text[..PACKET]], Packets(text[PACKET..]));
      }
    }
  }

  lemma OneConcat(text: string)
    ensures Concat([text]) == text
  {
    assert [text][..0] == [];
  }

  /** The packets of a reply's three writes. */
  function ReplyPackets(shown: nat, bytes: seq<byte>, crc: string): seq<string> {
    Packets(ReplyHeader(shown)) + Packets(HexText(bytes)) + Packets(ReplyFooter(crc))
  }

  lemma ReplyPacketsWhole(shown: nat, bytes: seq<byte>, crc: string)
    ensures Concat(ReplyPackets(shown, bytes, crc)) == PrintReply(shown, bytes, crc)
  {
    hide ReplyHeader, HexText, ReplyFooter, Packets;
    PacketsWhole(ReplyHeader(shown));
    PacketsWhole(HexText(bytes));
    PacketsWhole(ReplyFooter(crc));
    ConcatAppend(Packets(ReplyHeader(shown)), Packets(HexText(bytes)));
    ConcatAppend(Packets(ReplyHeader(shown)) + Packets(HexText(bytes)), Packets(ReplyFooter(crc)));
  }

  /** A session that answers reads of this card. */
  predicate Answers(fw: Firmware, card: Card) {
    && fw.card == Some(card) && fw.noReplyOnce == [] && !fw.hostSimulation && !fw.recorderOwnsCard && !fw.armed
       && !fw.stale
    && fw.phase == Done && fw.cardReady && fw.readActive.None? && fw.faults == map[]
  }

  lemma AnswersReads(fw: Firmware, card: Card, sector: nat)
    requires Answers(fw, card) && OnCard(Some(card), sector)
    ensures CanRead(fw, sector) && fw.card == Some(card) && fw.faults == map[]
  {
  }

  lemma StillAnswers(fw: Firmware, card: Card, sector: nat, fw': Firmware)
    requires CanRead(fw', sector) && fw'.card == Some(card) && fw'.faults == map[]
    ensures Answers(fw', card)
  {
  }

  /** One `sd read`, from the command to the parsed bytes. */
  method FetchSector(fw: MockSdCliFirmware, ghost card: Card, sector: nat, table: array<bv32>) returns (r: SdReadResult)
    requires Inv(fw.Now()) && Answers(fw.Now(), card) && OnCard(Some(card), sector) && Crc32.IsCrcTable(table[..])
    modifies fw
    ensures Inv(fw.Now()) && Answers(fw.Now(), card) && Crc32.IsCrcTable(table[..])
    ensures r.Data? && r.sector == sector && r.bytes == card.Read(sector)
  {
    hide Inv, Answers, CanRead, OnCard, Next, Crc32.Crc, FormatCrc32, Crc32.IsCrcTable, PrintReply, Verdict,
         AfterPush, ReplyPackets;
    ghost var before := fw.Now();
    AnswersReads(before, card, sector);
    ReadSucceeds(before, sector);
    SectorWhole(card, sector);
    fw.Handle(ReadCommand(sector));
    fw.ReadTimerFires();
    StillAnswers(before, card, sector, fw.Now());
    var sent := fw.events[|fw.events| - 1];
    var packets := ReplyPackets(sent.shown, sent.bytes, sent.crc);
    ReplyPacketsWhole(sent.shown, sent.bytes, sent.crc);
    FormattedShape(Crc32.Crc(card.Read(sector)));
    ChunkedReply(sent.shown, sent.bytes, sent.crc, sector, packets);
    SdRead.RoundTrip(sector, card.Read(sector));
    var text := Collect(packets);
    r := ParseSdReadReply(text, sector, table);
  }

  lemma SectorWhole(card: Card, sector: nat)
    requires OnCard(Some(card), sector)
    ensures |card.Read(sector)| == SECTOR_BYTES && sector <= MAX_SECTOR
  {
  }

  /** The packets pushed into a fresh collector; the text it resolves with. */
  method Collect(packets: seq<string>) returns (text: string)
    requires var v := AfterChunks(END_LINE, REPLY_CAP, packets); v.outcome.Some? && v.outcome.value.Resolved?
    ensures text == AfterChunks(END_LINE, REPLY_CAP, packets).outcome.value.text
  {
    hide AfterPush;
    var collector := new ResponseCollector(Some(END_LINE), REPLY_CAP);
    assert packets[..0] == [];
    for i := 0 to |packets|
      invariant collector.Valid() && collector.endMarker == Some(END_LINE) && collector.maxChars == REPLY_CAP
      invariant collector.Now() == AfterChunks(END_LINE, REPLY_CAP, packets[..i])
    {
      collector.Push(packets[i]);
      assert packets[..i + 1][..i] == packets[..i];
    }
    assert packets[..|packets|] == packets;
    text := collector.calls[0].text;
  }

  predicate AllOnCard(card: Card, sectors: seq<int>) {
    forall i :: 0 <= i < |sectors| ==> sectors[i] >= 0 && OnCard(Some(card), sectors[i])
  }

  /** A fresh probe that completes makes a session answer reads, also after a recording. */
  lemma FreshProbe(fw: Firmware, card: Card)
    requires fw.card == Some(card) && fw.noReplyOnce == [] && !fw.hostSimulation && !fw.recorderOwnsCard && !fw.armed
    requires fw.readActive.None? && fw.faults == map[] && fw.probeFinite && !ProbeBusy(fw.phase)
    ensures Answers(Next(Next(fw, Command(SdSession.PROBE)), ProbeTimer), card)
  {
    assert VerbOf(SdSession.PROBE) == Probe;
    hide VerbOf;
  }

  /** The sectors of a file, read one after the other. */
  method FetchSectors(fw: MockSdCliFirmware, ghost card: Card, sectors: seq<int>, table: array<bv32>)
    returns (bytes: seq<byte>)
    requires Inv(fw.Now()) && Answers(fw.Now(), card) && AllOnCard(card, sectors) && Crc32.IsCrcTable(table[..])
    modifies fw
    ensures Inv(fw.Now()) && Answers(fw.Now(), card) && Crc32.IsCrcTable(table[..])
    ensures bytes == ReadAll(card, sectors)
  {
    hide Inv, Answers, OnCard, Crc32.IsCrcTable;
    bytes := [];
    assert sectors[..0] == [];
    for i := 0 to |sectors|
      invariant Inv(fw.Now()) && Answers(fw.Now(), card) && Crc32.IsCrcTable(table[..])
      invariant bytes == ReadAll(card, sectors[..i])
    {
      var r := FetchSector(fw, card, sectors[i], table);
      bytes := bytes + r.bytes;
      assert sectors[..i + 1][..i] == sectors[..i];
    }
    assert sectors[..|sectors|] == sectors;
  }

  // ---------------------------------------------------------------- from a written card to the logs

  lemma FileOnCard(m: Image, fat: map<nat, nat>, o: Options, first: nat, size: nat, sectors: seq<int>)
    requires Finished(m, fat, o) && o.cardSectors <= MAX_SECTOR + 1
    requires FileSectors(CardOf(m, o), o.Geo(), {o.rootClus}, first, size, sectors)
    ensures AllOnCard(CardOf(m, o), sectors)
  {
    hide Finished, CardOf, FileSectors, GoodOptions;
    CardCount(m, fat, o);
    FileSectorsAreSafe(CardOf(m, o), o.Geo(), {o.rootClus}, first, size, sectors);
    forall i | 0 <= i < |sectors| ensures sectors[i] >= 0 && OnCard(Some(CardOf(m, o)), sectors[i]) {
      FinishedReads(m, fat, o, sectors[i]);
    }
  }

  lemma CardCount(m: Image, fat: map<nat, nat>, o: Options)
    requires Finished(m, fat, o)
    ensures CardOf(m, o).Count() == o.cardSectors && SoundGeometry(o.Geo(), o.cardSectors)
  {
    hide Built;
    CardSize(m, o);
    SoundOptions(o);
  }

  /** A listed file, sector by sector through the firmware, cut to its size: its payload. */
  method FetchFile(reader: Fat32RootReader, fw: MockSdCliFirmware, entry: Entry, table: array<bv32>,
                   ghost m: Image, ghost fat: map<nat, nat>, ghost o: Options) returns (file: seq<byte>)
    requires Finished(m, fat, o) && o.cardSectors <= MAX_SECTOR + 1 && entry in SortBy(Entries(o), EntryName)
    requires reader.Valid() && reader.listed && reader.card == CardOf(m, o)
    requires reader.Geo() == o.Geo() && reader.rootClusters == {o.rootClus}
    requires Inv(fw.Now()) && Answers(fw.Now(), CardOf(m, o)) && Crc32.IsCrcTable(table[..])
    modifies reader`cache, reader`cacheOrder, fw
    ensures reader.Valid() && Inv(fw.Now()) && Answers(fw.Now(), CardOf(m, o)) && Crc32.IsCrcTable(table[..])
    ensures forall j :: 0 <= j < |o.files| && o.files[j].name == entry.name ==> file == Payload(o.files[j].size, j)
  {
    hide CardOf, Built, GoodOptions, FileSectors, Entries, ReadAll, Payload, SortBy, MountedAs, Listed, CacheHolds,
         Fat32RootReader.Derived;
    hide Inv, Answers, Crc32.IsCrcTable, OnCard, AllOnCard;
    ghost var j := ListedFile(o, entry);
    FinishedFile(m, fat, o, j);
    var sectors := reader.FileDataSectors(entry);
    SectorsOnceMore(m, o, j, sectors.value);
    FileOnCard(m, fat, o, o.files[j].clusters[0], o.files[j].size, sectors.value);
    var bytes := FetchSectors(fw, reader.card, sectors.value, table);
    file := bytes[..entry.size];
    forall i | 0 <= i < |o.files| && o.files[i].name == entry.name ensures i == j { NamesApart(o, i, j); }
  }

  /** End to end: write logs to a card, mount and list it, probe it anew after a recording, and download
    * every listed log through the command line: the listing is the stored files sorted by name, and
    * every download is the payload that was stored under that name. */
  method DownloadCard(o: Options) returns (listing: seq<Entry>, contents: seq<seq<byte>>)
    requires GoodOptions(o) && o.cardSectors <= MAX_SECTOR + 1
    ensures listing == SortBy(Entries(o), EntryName)
    ensures |contents| == |listing|
    ensures forall k, j :: 0 <= k < |listing| && 0 <= j < |o.files| && o.files[j].name == listing[k].name ==>
              contents[k] == Payload(o.files[j].size, j)
  {
    hide CardOf, Finished, GoodOptions, Entries, ReadAll, Payload, SortBy, Fat32RootReader.Valid;
    hide Inv, Answers, Crc32.IsCrcTable;
    ghost var m, fat;
    var reader;
    reader, listing, m, fat := WriteAndList(o);
    contents := [];
    var card := reader.card;
    var fw := OpenSession(card, m, fat, o);
    var table := Crc32.MakeTable();
    for k := 0 to |listing|
      invariant reader.Valid() && reader.listed && reader.card == card
      invariant reader.Geo() == o.Geo() && reader.rootClusters == {o.rootClus}
      invariant Inv(fw.Now()) && Answers(fw.Now(), card) && Crc32.IsCrcTable(table[..]) && fresh(fw)
      invariant |contents| == k
      invariant forall k', j :: 0 <= k' < k && 0 <= j < |o.files| && o.files[j].name == listing[k'].name ==>
                  contents[k'] == Payload(o.files[j].size, j)
    {
      var file := FetchFile(reader, fw, listing[k], table, m, fat, o);
      contents := contents + [file];
    }
  }

  /** A session that begins with a stale probe, and is probed anew. */
  method OpenSession(card: Card, ghost m: Image, ghost fat: map<nat, nat>, ghost o: Options)
    returns (fw: MockSdCliFirmware)
    requires Finished(m, fat, o) && card == CardOf(m, o)
    ensures fresh(fw) && Inv(fw.Now()) && Answers(fw.Now(), card)
  {
    hide Inv, Answers, Finished, CardOf, Next;
    fw := new MockSdCliFirmware(Some(card), false, false, false, true, true, true);
    StaleSession(m, fat, o, fw.Now());
    FreshProbe(fw.Now(), card);
    fw.Handle(SdSession.PROBE);
    fw.ProbeTimerFires();
  }

  /** A session whose probe is from before a recording. */
  lemma StaleSession(m: Image, fat: map<nat, nat>, o: Options, fw: Firmware)
    requires Finished(m, fat, o) && fw == Start(Some(CardOf(m, o)), false, false, false, true, true, true)
    ensures Inv(fw)
  {
    hide Finished, CardOf, Inv, GoodOptions;
    CardCount(m, fat, o);
    forall i | 0 <= i < o.cardSectors ensures |CardOf(m, o).Read(i)| == SECTOR_BYTES { FinishedReads(m, fat, o, i); }
    assert GoodCard(fw);
    assert IsStart(fw);
    StartKeeps(fw);
  }
}
