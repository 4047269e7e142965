# Verification of the BobFlight host tools

This project models the parts of BobFlight that move data between a flight controller and a computer, and
proves what they promise. The main part is the SD-card download: a FAT32 reader (in two implementations), the
image builder its tests use, the `sd read` sector protocol with its CRC, parser and firmware model, the line
framing under it, and the serial client around it. Three smaller cores follow: the order in which a gyro
notch is written, the Intel HEX check of a firmware image, and the packing of board pins.

Where the code changes state step by step, the model is a class or a method with loops, proved against
predicates and functions that say what the result has to be; what the code promises is then proved about
those. The modules build on each other:

| module | what it holds |
|---|---|
| `Bytes`, `Digits`, `FatVolume`, `FatChains`, `FatDirectory`, `NameOrder` | decimal texts, and what a mountable volume, a cluster chain, a directory scan and a sorted listing are, and that each is unique on a card |
| `FatRootReader` | the TypeScript reader, proved to accept exactly those cards, listings and files |
| `FatOnDisk` | the same conditions on the card's bytes, with literal offsets and bounds |
| `BlackboxReader` | the Python reader, written out from its own source, proved to accept the same cards and to agree on every listed log |
| `CardImage`, `SparseCard`, `CardRoundTrip` | the image builder, and the round trip builder to reader |
| `Crc32`, `CliFraming`, `Collector`, `SdRead` | CRC-32, line splitting, the reply collector, the reply parser |
| `SdFirmware`, `SdSession` | the firmware's `sd` command machine over whole runs, and what each line, poll and fault does to a session |
| `ReplyTexts` | the texts on the wire, character by character |
| `SdDownload` | all of the above end to end |
| `CliClient`, `ClientSession`, `ClientReplies` | the serial client as an event machine over whole runs, what each event does to its session, and how it settles with the replies of the firmware |
| `GyroNotch`, `HexImage`, `HexFlash`, `BoardPins` | the three smaller cores |

The FAT32 fields are those of the Microsoft FAT32 File System Specification 1.03 (sections "FAT Type
Determination", "FAT Data Structure", "FAT Directory Structure") and section 5.2.1 of the UEFI Specification;
the CRC is that of section 3.2.9 of IEEE 802.3; HEX records follow section 2 of the Intel Hexadecimal Object
File Format Specification, Rev. A.

The results to read first are `SdDownload.DownloadCard`, `CardRoundTrip.RoundTrip`,
`BlackboxReader.ReadersAgree`, `FatRootReader.Fat32RootReader.FileDataSectors`, `Crc32.BurstDetected`,
`SdFirmware.HostIsNotDeceived`, `SdFirmware.ReadsAreSafe`, `SdSession.CancelledNeverAnswers`,
`CliClient.TextIsWhatWasHeard`, `CliClient.CleanThroughout`, `ClientReplies.ReadSettles`,
`GyroNotch.NotchWritePlan` and `HexImage.Validate`.

Four properties one might expect are false of the code. Each has a witness and an exact condition:

- A CR and its LF in different chunks give an extra empty line (`CliFraming.CutPairAddsLine`); there is one for
  each such cut, and the lines are equal exactly when no cut falls there (`CliFraming.ChunksSplitAlike`).
- The firmware model stores a notch value rounded to float32, and 199.999999 Hz under a centre of 200 Hz
  becomes 200 Hz (`GyroNotch.RoundingBreaksPair`, with rounding to the float32 spacing of that range); an
  accepted value keeps the pair rule exactly when it does not round onto its bound
  (`GyroNotch.AcceptedKeepsPair`).
- A length overflow of a framed command does not drop the link: a run that connects, sends `sd read 0` with a
  limit of four characters and receives five stays connected (`CliClient.OverflowKeepsLink`). A rejection drops
  it exactly for `save` and for a framed command whose end marker is missing (`CliClient.RejectionDrops`).
- Two overlapping `connect` calls leave the first port's handlers attached, and its bytes then reach commands
  written to the second port (`CliClient.OverlappingConnectsMixPorts`); the handlers stay on the current port
  alone exactly when no opening ends while a port is held (`CliClient.CleanThroughout`).

## Model

| member | source | states |
|---|---|---|
| `FatVolume.MountIsUnique` | bobflight-configurator/protocol/src/fat32-root.ts:79-151 | A card mounts as at most one geometry and partition limit. |
| `FatVolume.MountsIsSound` | bobflight-configurator/protocol/src/fat32-root.ts:118-151 | What mounting establishes is enough for all later bounds. |
| `FatVolume.ClusterInVolume` | bobflight-configurator/protocol/src/fat32-root.ts:181-183 | Every valid cluster lies wholly after the FATs and inside the volume and card, and its number is below 0x0FFFFFF0, so the volume-bounds guard at line 271 cannot fire. |
| `FatVolume.FatSlotInFat` | bobflight-configurator/protocol/src/fat32-root.ts:157-161 | Every FAT entry lies inside one sector of its own FAT and on the card, so the FAT-size guard at line 160 cannot fire. |
| `FatVolume.ClustersDisjoint` | bobflight-configurator/protocol/src/fat32-root.ts:181-183 | Different clusters share no sector. |
| `FatChains.FileChainIsUnique` | bobflight-configurator/protocol/src/fat32-root.ts:248-264 | From a first cluster there is at most one complete file chain. |
| `FatChains.EndMarkedIsSimple` | bobflight-configurator/protocol/src/fat32-root.ts:251-264 | An end-marked chain never repeats a cluster: a cycle is never end-marked. |
| `FatChains.ChainCoversFile` | bobflight-configurator/protocol/src/fat32-root.ts:246-275 | A chain of ceil(size / cluster bytes) clusters holds ceil(size / 512) sectors and needs its last cluster, so the guard at line 275 cannot fire. |
| `FatChains.SectorAt` | bobflight-configurator/protocol/src/fat32-root.ts:265-274 | The i-th sector of a chain is in its (i / secPerClus)-th cluster, at offset i modulo secPerClus. |
| `FatChains.FileSectorsAreSafe` | bobflight-configurator/protocol/src/fat32-root.ts:236-277 | The sectors handed out for a file are ceil(size / 512) different sectors, all in the data area of the volume and none in a scanned root cluster. |
| `FatChains.FileSectorsUnique` | bobflight-configurator/protocol/src/fat32-root.ts:236-277 | A directory entry determines its sector list. |
| `FatChains.StepIsNeeded` | bobflight-configurator/protocol/src/fat32-root.ts:251-264 | Each check of the chain loop holds of every complete chain, so a failed check means there is none. |
| `FatDirectory.ScanIsUnique` | bobflight-configurator/protocol/src/fat32-root.ts:199-229 | The root chain, the number of scanned sectors and the entries before the first 0x00 entry are determined by the card. |
| `FatDirectory.ScanContinues` | bobflight-configurator/protocol/src/fat32-root.ts:202-229 | A scan in progress is a beginning of every complete scan. |
| `FatDirectory.StopsAtFirstEnd` | bobflight-configurator/protocol/src/fat32-root.ts:211-214 | Entries seen before the first 0x00 entry are exactly a beginning of the scanned entries. |
| `FatDirectory.RepeatedNameRefuses` | bobflight-configurator/protocol/src/fat32-root.ts:222 | A repeated log name anywhere in the scan means the card has no listing. |
| `FatDirectory.FilesComeFromSlots` | bobflight-configurator/protocol/src/fat32-root.ts:215-224 | The listed files are exactly the live BFL slots that are not directories. |
| `FatDirectory.NextClusterIsNeeded` | bobflight-configurator/protocol/src/fat32-root.ts:203-206 | A repeated cluster or a bad link in the root chain means the card has no scan. |
| `NameOrder.SortByAscending` | bobflight-configurator/protocol/src/fat32-root.ts:231-233 | Sorting gives an ascending permutation. |
| `NameOrder.AscendingIsUnique` | bobflight-configurator/protocol/src/fat32-root.ts:231-233 | With different names there is only one ascending permutation. |
| `FatRootReader.PowersOfTwo` | bobflight-configurator/protocol/src/fat32-root.ts:120-121 | The bit test accepts exactly the powers of two up to 128. |
| `FatRootReader.ReadPartitionTable` | bobflight-configurator/protocol/src/fat32-root.ts:91-97 | The MBR loop refuses exactly when a GPT entry is present and else collects the FAT32 entries in order. |
| `FatRootReader.OneFatSlot` | bobflight-configurator/protocol/src/fat32-root.ts:98-99 | Exactly one entry was collected if and only if one slot alone is a FAT32 slot, and then it is that slot's start and count. |
| `FatRootReader.Remember` | bobflight-configurator/protocol/src/fat32-root.ts:74-75 | Storing a sector keeps the cache bounded, in insertion order and equal to the card. |
| `FatRootReader.ForgetOldest` | bobflight-configurator/protocol/src/fat32-root.ts:74 | Dropping the oldest sector keeps the same. |
| `FatRootReader.Fat32RootReader.Meta` | bobflight-configurator/protocol/src/fat32-root.ts:65-77 | Cache transparency: the cached read succeeds exactly when the uncached one would, returns the card's content, and forgets in FIFO order at 4096 sectors. |
| `FatRootReader.Fat32RootReader.Mount` | bobflight-configurator/protocol/src/fat32-root.ts:79-86 | Mounting succeeds if and only if the card holds a mountable volume, and then the fields describe it. |
| `FatRootReader.Fat32RootReader.DetectPartitionOffset` | bobflight-configurator/protocol/src/fat32-root.ts:88-104 | An offset is found if and only if there is a superfloppy volume or one FAT32 partition with a boot sector on the card. |
| `FatRootReader.Fat32RootReader.ParseVbr` | bobflight-configurator/protocol/src/fat32-root.ts:118-151 | The boot sector is accepted if and only if all field, bounds and capacity conditions hold. |
| `FatRootReader.Fat32RootReader.VerifyCleanFat` | bobflight-configurator/protocol/src/fat32-root.ts:173-179 | Accepts exactly clean, error-free volumes whose first FAT sectors agree. |
| `FatRootReader.Fat32RootReader.FatEntryOf` | bobflight-configurator/protocol/src/fat32-root.ts:153-171 | Returns the 28-bit entry exactly for in-range clusters whose mirror sectors agree. |
| `FatRootReader.MountableIff` | bobflight-configurator/protocol/src/fat32-root.ts:79-86 | Mountable means: sector 0 readable, a partition found there, and the volume at it fits. |
| `FatRootReader.MountedOnce` | bobflight-configurator/protocol/src/fat32-root.ts:79-86 | Whatever mounts is the one geometry of the card. |
| `FatRootReader.Fat32RootReader.ListBblFiles` | bobflight-configurator/protocol/src/fat32-root.ts:193-234 | Listing succeeds if and only if the root can be scanned and no log name repeats; the result is then the log files of the scan, sorted, the subdirectories, and the scanned clusters. |
| `FatRootReader.Fat32RootReader.ScanRoot` | bobflight-configurator/protocol/src/fat32-root.ts:196-229 | The scan loop ends on every chain, cyclic ones too, and collects exactly the scanned entries. |
| `FatRootReader.Fat32RootReader.ScanCluster` | bobflight-configurator/protocol/src/fat32-root.ts:207-226 | One cluster of the scan extends the scanned entries or ends at the first 0x00 entry. |
| `FatRootReader.ScanSector` | bobflight-configurator/protocol/src/fat32-root.ts:211-225 | One sector: entries up to the first 0x00, names unique, files and subdirectories told apart. |
| `FatRootReader.Fat32RootReader.FileDataSectors` | bobflight-configurator/protocol/src/fat32-root.ts:236-277 | Returns if and only if the size is 1 byte to 64 MiB and the links form a simple end-marked path of exactly ceil(size / cluster bytes) in-range clusters clear of the scanned root; the result is its first ceil(size / 512) sectors. |
| `FatRootReader.Fat32RootReader.WalkFile` | bobflight-configurator/protocol/src/fat32-root.ts:248-264 | The chain loop returns the one complete chain of the expected length, if there is one. |
| `FatRootReader.Fat32RootReader.ExpandSectors` | bobflight-configurator/protocol/src/fat32-root.ts:265-276 | The sector loop returns the first sectors of the chain, in order, while they are inside the volume. |
| `FatRootReader.FileSectorsIff` | bobflight-configurator/protocol/src/fat32-root.ts:241-277 | A sector list exists if and only if the size is allowed and a complete chain exists. |
| `FatRootReader.ListingHolds` | bobflight-configurator/protocol/src/fat32-root.ts:230-233 | The sorted files and subdirectories of a complete scan are a listing. |
| `FatOnDisk.BootSectorOnDisk` | bobflight-configurator/protocol/src/fat32-root.ts:106-116 | Which sectors are taken for a FAT32 boot sector, byte by byte. |
| `FatOnDisk.PartitionOnDisk` | bobflight-configurator/protocol/src/fat32-root.ts:88-104 | Which partition is found on a card whose first sector is an MBR, from the type, start and length bytes of its four slots. |
| `FatOnDisk.RootLinkOnDisk` | bobflight-configurator/protocol/src/fat32-root.ts:205-206 | The scan goes on from a cluster exactly when its link is 0x0FFFFFF8 or above or a cluster number. |
| `FatOnDisk.RootLimit` | bobflight-configurator/protocol/src/fat32-root.ts:208-209 | An end-marked root whose sectors can be read and hold no end marker is scanned exactly when it has at most 4096 sectors. |
| `FatOnDisk.FieldsAreLittleEndian` | bobflight-configurator/protocol/src/fat32-root.ts:36-37 | A field of two or four bytes starts with its lowest byte. |
| `FatOnDisk.LinkOnDisk` | bobflight-configurator/protocol/src/fat32-root.ts:153-171 | On the card's bytes: the link of a cluster is the low 28 bits of the little-endian word at byte 4 * cluster of the first FAT, read for a cluster in range exactly when the sectors that hold it can be read and agree. |
| `FatOnDisk.OneClusterFile` | bobflight-configurator/protocol/src/fat32-root.ts:246-264 | A file of at most one cluster has a sector list exactly when its cluster's link is 0x0FFFFFF8 or above, and it is then the first sectors of that cluster. |
| `FatOnDisk.BrokenLinkRefuses` | bobflight-configurator/protocol/src/fat32-root.ts:251-264 | A first cluster whose link is neither 0x0FFFFFF8 or above nor a cluster number has no file of any size. |
| `FatOnDisk.SizeLimit` | bobflight-configurator/protocol/src/fat32-root.ts:244-247 | No file is empty or longer than 64 MiB, and every other size with a complete chain has a sector list. |
| `FatOnDisk.OneClusterRoot` | bobflight-configurator/protocol/src/fat32-root.ts:199-229 | A readable root cluster whose link is 0x0FFFFFF8 or above can be scanned; one whose link is neither that nor a cluster number cannot. |
| `FatOnDisk.ScanEndsAtZero` | bobflight-configurator/protocol/src/fat32-root.ts:211-214 | A complete scan ends in front of the first slot that starts with a zero byte, or at the end of the chain. |
| `FatOnDisk.LayoutOnDisk` | bobflight-configurator/protocol/src/fat32-root.ts:141-149 | The FATs follow the reserved sectors, the data area follows the FATs, and cluster 2 is its first cluster. |
| `FatOnDisk.MountRules` | bobflight-configurator/protocol/src/fat32-root.ts:118-151 | Which boot sectors are accepted, byte by byte and with literal bounds. |
| `FatOnDisk.CleanOnDisk` | bobflight-configurator/protocol/src/fat32-root.ts:173-179 | The clean-shutdown and no-error marks are bits 3 and 2 of byte 7 of the first FAT, and the mirror agrees. |
| `FatOnDisk.SlotOnDisk` | bobflight-configurator/protocol/src/fat32-root.ts:213-224 | Which 32-byte slots are logs, which of those are subdirectories, and the name, cluster and size a log's slot says, byte by byte. |
| `FatOnDisk.ListingByNumber` | bobflight-configurator/protocol/src/fat32-root.ts:230-233 | The logs of a listing come in the order of their numbers. |
| `BlackboxReader.FAT32Reader.ReadSector` | tools/download_blackbox.py:235-246 | The Python cache is transparent too: a read succeeds exactly when the card has the sector, returns its content, and forgets in the order of insertion at 4096 sectors. |
| `BlackboxReader.FAT32Reader.Mount` | tools/download_blackbox.py:248-253 | The Python reader mounts if and only if the card holds a mountable volume, the same condition as for the TypeScript reader. |
| `BlackboxReader.FAT32Reader.DetectPartitionOffset` | tools/download_blackbox.py:255-271 | An offset is found if and only if there is a superfloppy volume or one FAT32 partition with a boot sector on the card, and it is that partition's. |
| `BlackboxReader.FAT32Reader.IsValidFat32Vbr` | tools/download_blackbox.py:273-299 | The field-by-field test accepts exactly the FAT32 boot sectors. |
| `BlackboxReader.FAT32Reader.ParseVbr` | tools/download_blackbox.py:301-368 | The boot sector is accepted if and only if all field, bounds and capacity conditions hold, and the fields then describe it. |
| `BlackboxReader.FAT32Reader.GetFatEntry` | tools/download_blackbox.py:370-390 | Returns the 28-bit entry exactly for in-range clusters whose mirror sectors agree. |
| `BlackboxReader.FAT32Reader.VerifyCleanFat` | tools/download_blackbox.py:392-400 | Accepts exactly clean, error-free volumes whose first FAT sectors agree. |
| `BlackboxReader.MountsAgree` | tools/download_blackbox.py:248-253 | Two readers, one of each kind, mounted on one card hold the same geometry. |
| `BlackboxReader.FAT32Reader.ReadFile` | tools/download_blackbox.py:415-535 | Reading a name returns data exactly when the name is a log name carried by one live file slot whose chain is complete and readable; "not found" exactly when the scan holds no such slot. |
| `BlackboxReader.FAT32Reader.FindTarget` | tools/download_blackbox.py:418-476 | The Python scan loop visits the same scan and finds the target in it. |
| `BlackboxReader.FAT32Reader.ReadChain` | tools/download_blackbox.py:481-535 | The data is the chain's sectors, cut to the size, exactly when the chain is complete and its sectors are readable. |
| `BlackboxReader.FAT32Reader.FollowChain` | tools/download_blackbox.py:492-518 | The Python chain loop accepts exactly the complete chains. |
| `BlackboxReader.ReadersAgree` | tools/download_blackbox.py:415-535 | For every listed log the Python reader returns data exactly when the TypeScript reader's sector list exists and is readable, and then those sectors' bytes cut to the size. |
| `BlackboxReader.SubdirectoryRefused` | tools/download_blackbox.py:454-456 | A log name that is a subdirectory is refused, never read and never "not found". |
| `BlackboxReader.UnlistedNotFound` | tools/download_blackbox.py:478-479 | A log name that is neither listed nor a subdirectory is not found. |
| `BlackboxReader.NoBadCluster` | tools/download_blackbox.py:500-505 | Every cluster number that passes the range check is below 0x0FFFFFF0, whatever chain it is in, so the bad-cluster guard after it never refuses. |
| `BlackboxReader.NormalizeDotted` | tools/download_blackbox.py:402-413 | A listed name is accepted and normalises to the eleven bytes of its slot. |
| `BlackboxReader.RepeatedRefused` | tools/download_blackbox.py:450-456 | A name that two live slots of the scan carry is refused, never read. |
| `BlackboxReader.AnyCase` | tools/download_blackbox.py:402-413 | A log may be asked for in lower case, letter by letter. |
| `BlackboxReader.OnlyLogNames` | tools/download_blackbox.py:402-413 | Nothing but a log's name in upper case is ever looked up. |
| `BlackboxReader.LigatureName` | tools/download_blackbox.py:402-413 | The ligature U+FB02 counts as its two letters. |
| `BlackboxReader.ScanDecides` | tools/download_blackbox.py:418-479 | A card's one complete scan decides both answers for every name. |
| `CardImage.DefaultsAreGood` | bobflight-configurator/protocol/src/sd-read-mock.ts:61-69 | The builder's default card is one of the cards the round trip covers. |
| `CardImage.VbrDecodes` | bobflight-configurator/protocol/src/sd-read-mock.ts:77-84 | The boot sector the builder writes decodes to the geometry it was asked for. |
| `CardImage.BootLabels` | bobflight-configurator/protocol/src/sd-read-mock.ts:77-84 | The jump, the maker's name, the media byte and the type label of the boot sector, byte by byte. |
| `CardImage.MbrDecodes` | bobflight-configurator/protocol/src/sd-read-mock.ts:70-76 | The MBR the builder writes has one FAT32 slot, the card's partition. |
| `CardImage.EntryDecodes` | bobflight-configurator/protocol/src/sd-read-mock.ts:94-101 | A written directory entry decodes to its name, first cluster and size. |
| `SparseCard.SparseFat32Card.constructor` | bobflight-configurator/protocol/src/sd-read-mock.ts:61-111 | The finished image holds the boot sectors, both FATs, the directory and every payload at its place. |
| `SparseCard.SparseFat32Card.SetFat` | bobflight-configurator/protocol/src/sd-read-mock.ts:122-124 | One entry changes in every FAT and nothing else does. |
| `SparseCard.SparseFat32Card.SetChain` | bobflight-configurator/protocol/src/sd-read-mock.ts:93 | A file's links are written, and the other files' links stay. |
| `SparseCard.SparseFat32Card.WritePayload` | bobflight-configurator/protocol/src/sd-read-mock.ts:102-109 | The payload fills the file's sectors in order; other sectors stay. |
| `SparseCard.PayloadPattern` | bobflight-configurator/protocol/src/sd-read-mock.ts:102-103 | The first payload byte is 37; each is 13 above the byte before and 101 above the same byte of the file before, modulo 256. |
| `SparseCard.WithWordReads` | bobflight-configurator/protocol/src/sd-read-mock.ts:122-124 | A FAT word reads back as written and every other word as before. |
| `SparseCard.FileRegion` | bobflight-configurator/protocol/src/sd-read-mock.ts:113-120 | File sectors are clear of the boot sectors, the FATs and the root cluster. |
| `CardRoundTrip.FinishedMounts` | bobflight-configurator/protocol/src/sd-read-mock.ts:61-111 | Every image the builder makes mounts, with or without an MBR, with one FAT or two. |
| `CardRoundTrip.FinishedFile` | bobflight-configurator/protocol/src/sd-read-mock.ts:92-110 | Each stored file has its sector list, and reading it and cutting to the size gives the payload. |
| `CardRoundTrip.FinishedListing` | bobflight-configurator/protocol/src/fat32-root.ts:193-234 | Any listing of the image is exactly the stored files, sorted, without subdirectories. |
| `CardRoundTrip.SameSectors` | bobflight-configurator/protocol/src/sd-read-mock.ts:166-172 | The i-th sector of a file is `fileSectorLba(name, 512 * i)`. |
| `CardRoundTrip.WriteAndList` | bobflight-configurator/protocol/src/sd-read-mock.ts:45-173 | Building, mounting and listing succeed for every such card, and the listing is the stored files sorted. |
| `CardRoundTrip.RoundTrip` | bobflight-configurator/protocol/src/sd-read-mock.ts:45-173 | Builder and reader: mount, list and read succeed, the listing is the stored files sorted, and every file's bytes are its payload. |
| `Crc32.MakeTable` | bobflight-configurator/protocol/src/sd-read.ts:60-68 | The table holds, for each byte, eight steps of the shift register. |
| `Crc32.TableLookup` | bobflight-configurator/protocol/src/sd-read.ts:73 | One table lookup is eight single-bit steps. |
| `Crc32.Crc32Ieee` | bobflight-configurator/protocol/src/sd-read.ts:70-75 | The table-driven loop computes the CRC of the bit-by-bit definition. |
| `Crc32.CheckValue` | bobflight-configurator/protocol/src/sd-read.ts:70-75 | The CRC of the nine digits "123456789" is 0xCBF43926. |
| `Crc32.Residue` | bobflight-configurator/protocol/src/sd-read.ts:70-75 | The residue law: any bytes followed by their own CRC, low byte first, have the CRC 0x2144DF1C. |
| `Crc32.FeedIsClocking` | bobflight-configurator/protocol/src/sd-read.ts:22-24 | Feeding bytes is clocking their bits, low bit first, one at a time through the reflected 0xEDB88320 register. |
| `Crc32.FeedInjective` | bobflight-configurator/protocol/src/sd-read.ts:73 | For fixed bytes the final register determines the initial one. |
| `Crc32.BurstDetected` | bobflight-configurator/protocol/src/sd-read.ts:70-75 | Any change inside four consecutive bytes changes the CRC. |
| `CliFraming.LineBuffer.Push` | bobflight-configurator/protocol/src/cli-framing.ts:18-45 | The index-resetting loop emits exactly the complete lines of what is buffered, split at CRLF, LF or lone CR, and keeps the rest, which holds no line end. |
| `CliFraming.SplitInvertsJoin` | bobflight-configurator/protocol/src/cli-framing.ts:22-43 | Splitting inverts joining: lines without a CR or LF, each followed by CRLF, LF or a CR no LF follows, split back into exactly those lines. |
| `CliFraming.SplitConcat` | bobflight-configurator/protocol/src/cli-framing.ts:26-32 | How splitting a text that arrives in two parts relates to splitting it whole, with the CR, LF cut as the only exception. |
| `CliFraming.ChunksSplitAlike` | bobflight-configurator/protocol/src/cli-framing.ts:18-45 | For every chunking the remainder and the non-empty lines are those of one push; there is one extra empty line per cut between CR and LF, so the lines are equal exactly when there is none. |
| `CliFraming.CutPairAddsLine` | bobflight-configurator/protocol/src/cli-framing.ts:26-32 | A CR and an LF pushed apart give two empty lines where one push gives one. |
| `Collector.ResponseCollector.Push` | bobflight-configurator/protocol/src/cli-framing.ts:95-114 | The new state after a chunk: overflow rejects, a stop line resolves, else the text grows. |
| `Collector.ResponseCollector.Finish` | bobflight-configurator/protocol/src/cli-framing.ts:116-127 | Settles at most once, by the rules for time-outs. |
| `Collector.ResponseCollector.Cancel` | bobflight-configurator/protocol/src/cli-framing.ts:129-136 | A settled collector stays as it was; another is rejected and its timers stop. |
| `Collector.ResponseCollector.HardTimeout` | bobflight-configurator/protocol/src/cli-framing.ts:88-92 | The hard timer rejects a framed or empty reply and else resolves with the text. |
| `Collector.ResponseCollector.IdleTimeout` | bobflight-configurator/protocol/src/cli-framing.ts:113 | The idle timer runs only without an end marker, and resolves with the text. |
| `Collector.StopsAtEnd` | bobflight-configurator/protocol/src/cli-framing.ts:109-110 | A beginning of a framed reply stops the collector exactly when all its lines are there; at most a final LF is then missing. |
| `Collector.ChunkingSettles` | bobflight-configurator/protocol/src/cli-framing.ts:95-127 | After any number of chunks of a framed reply the collector holds the text so far or has resolved with the reply. |
| `Collector.FramedReplySettles` | bobflight-configurator/protocol/src/cli-framing.ts:95-127 | For every chunking within the cap the collector resolves with the reply or the reply without its last LF, and both have the same lines. |
| `ReplyTexts.BlanksByCode` | bobflight-configurator/protocol/src/sd-read.ts:107 | The characters that trimming removes, by code. |
| `ReplyTexts.UnknownIsFramed` | bobflight-configurator/protocol/src/cli-framing.ts:110 | Whatever report was asked for, the answer to an unknown command, with or without its hint, ends the reply. |
| `ReplyTexts.ModeRefusalStops` | bobflight-configurator/protocol/src/cli-framing.ts:110 | A refused mode range or control source ends the `modes` reply and no other. |
| `ReplyTexts.TrimInvertsPadding` | bobflight-configurator/protocol/src/cli-framing.ts:58-61 | Trimming removes the blanks around a text and nothing else. |
| `SdRead.ParseSdReadReply` | bobflight-configurator/protocol/src/sd-read.ts:115-148 | The parser's result is the meaning of the text: error line, refusal line, a frame for this sector judged by its CRC, or malformed. |
| `SdRead.FrameUnique` | bobflight-configurator/protocol/src/sd-read.ts:110-114 | A frame carries one sector's bytes and one CRC. |
| `SdRead.FrameFields` | bobflight-configurator/protocol/src/sd-read.ts:122-142 | The five lines of a frame, in any order with the end line last, pass every field check. |
| `SdRead.FieldsFrame` | bobflight-configurator/protocol/src/sd-read.ts:129-142 | Fields that pass every check come from exactly the five lines of a frame. |
| `SdRead.DecodeInvertsHex` | bobflight-configurator/protocol/src/sd-read.ts:143-144 | Decoding inverts the upper-case hex encoding. |
| `SdRead.HexInvertsDecode` | bobflight-configurator/protocol/src/sd-read.ts:143-144 | A hex text is the encoding of the bytes decoded from it. |
| `SdRead.FormatInjective` | bobflight-configurator/protocol/src/sd-read.ts:77-80 | Different CRCs print differently. |
| `ReplyTexts.HexDigitsAre` | bobflight-configurator/protocol/src/sd-read.ts:77-80 | Digit i of k counts the powers of sixteen from the left, in upper case. |
| `ReplyTexts.HexTextIs` | bobflight-configurator/protocol/src/sd-read-mock.ts:398-399 | Byte i is printed as its high and its low digit, in upper case. |
| `ReplyTexts.CheckValuePrinted` | bobflight-configurator/protocol/src/sd-read.ts:77-80 | The CRC of "123456789" is printed as CBF43926. |
| `SdRead.RoundTrip` | bobflight-configurator/protocol/src/sd-read.ts:115-148 | For every sector number and every 512 bytes, parsing the firmware's text returns those bytes. |
| `SdRead.BurstIsMismatch` | bobflight-configurator/protocol/src/sd-read-mock.ts:395-404 | Bytes changed inside four consecutive ones after the CRC was taken parse as a CRC mismatch, for every sector content. |
| `SdRead.WrongSectorIsMalformed` | bobflight-configurator/protocol/src/sd-read.ts:131-133 | A reply for another sector is malformed, whatever it carries. |
| `SdRead.ErrorReplyIsError` | bobflight-configurator/protocol/src/sd-read.ts:118-119 | A printed reply of an error line and the end line is reported as that error. |
| `ReplyTexts.LimitDecides` | bobflight-configurator/protocol/src/sd-read.ts:115-119 | The limit is 16384 characters: an error reply is reported up to that length and malformed beyond it. |
| `ReplyTexts.UnknownWordEnds` | bobflight-configurator/protocol/src/sd-read.ts:104 | A line that goes on after `unknown` is a refusal exactly when the word ends there. |
| `ReplyTexts.ColonDecides` | bobflight-configurator/protocol/src/sd-read.ts:104-118 | The other refusals and the errors need their colon. |
| `ReplyTexts.ErrorWins` | bobflight-configurator/protocol/src/sd-read.ts:118-121 | An error line after a refusal line decides: the reply is that error. |
| `ReplyTexts.RefusalIsRefused` | bobflight-configurator/protocol/src/sd-read.ts:104-121 | A reply of one line that starts with `unknown` as a word, `sd unavailable:`, `sd refused:` or `command refused:`, alone or before `sd_end: 1`, is reported as that refusal. |
| `SdRead.PrintedIsFramed` | bobflight-configurator/protocol/src/sd-read-mock.ts:401-404 | A data reply has its one stop line at the end. |
| `SdRead.ChunkedReply` | bobflight-configurator/protocol/src/sd-read-mock.ts:442-445 | However a data reply is cut into chunks, what the collector resolves with parses like the whole reply. |
| `SdFirmware.StepKeeps` | bobflight-configurator/protocol/src/sd-read-mock.ts:315-406 | Every command, timer, arming change, recording and fault keeps the invariant of the machine. |
| `SdFirmware.ReadsAreConserved` | bobflight-configurator/protocol/src/sd-read-mock.ts:322-330 | Over every run the reads in flight are 1 exactly while a read is active, every un-silenced `sd read` was terminated, cancelled or is active, and at most two were ever open, two if reads were pipelined. |
| `SdFirmware.ReadsAreSafe` | bobflight-configurator/protocol/src/sd-read-mock.ts:342-405 | Over every run a read begins or a sector is sent only inside the card, disarmed, after a completed probe with nothing since that spoils it; a sector is sent only when not stale, and carries the sector's bytes and CRC or the one-byte fault. |
| `SdFirmware.ReadyIsProbed` | bobflight-configurator/protocol/src/sd-read-mock.ts:354-371 | Ready means: some earlier probe completed, or the session started so, and no cancel, new probe, async fault, guard failure or driver error came since. |
| `SdFirmware.HostIsNotDeceived` | bobflight-configurator/protocol/src/sd-read-mock.ts:335-404 | Over every run and whatever the faults, each data reply parses as exactly the asked sector's bytes or as mismatch or malformed, and as data exactly when no fault touched it; each refusal of the firmware's own parses as that error, for whatever sector it is taken. |
| `SdFirmware.RefusalsAreErrors` | bobflight-configurator/protocol/src/sd-read-mock.ts:335-380 | The text of each refusal, as printed, is reported to the host as that error for every sector number. |
| `SdFirmware.CommandIsUnderstood` | bobflight-configurator/protocol/src/sd-read.ts:82-88 | The command the host prints for a sector is the one the firmware reads. |
| `SdFirmware.ReadSucceeds` | bobflight-configurator/protocol/src/sd-read-mock.ts:373-405 | In a session that may read, command and poll answer with the sector and leave the session ready for the next. |
| `SdSession.ReadLines` | bobflight-configurator/protocol/src/sd-read-mock.ts:332-333 | Which lines are `sd read`, and which lines are not for the card. |
| `SdSession.ArgumentAccepted` | bobflight-configurator/protocol/src/sd-read-mock.ts:376-377 | The argument is accepted exactly when it is the canonical decimal of a number below 2^32. |
| `SdSession.UnavailableOutcome` | bobflight-configurator/protocol/src/sd-read-mock.ts:334-341 | In host simulation, or while the recorder owns the card, each `sd` line is refused and nothing but the log changes. |
| `SdSession.StatusOutcome` | bobflight-configurator/protocol/src/sd-read-mock.ts:342-370 | `sd status` changes nothing, and is refused while a read is active. |
| `SdSession.ProbeOutcome` | bobflight-configurator/protocol/src/sd-read-mock.ts:354-371 | `sd probe` starts the card anew unless armed, probing or reading. |
| `SdSession.CancelOutcome` | bobflight-configurator/protocol/src/sd-read-mock.ts:342-352 | `sd cancel` ends an active read, or else a running probe, or else changes nothing. |
| `SdSession.PipelinedOutcome` | bobflight-configurator/protocol/src/sd-read-mock.ts:344 | `sd read` during a read is refused at once and leaves that read as it was. |
| `SdSession.OtherOutcome` | bobflight-configurator/protocol/src/sd-read-mock.ts:333 | A line that is not for the card changes nothing but the log. |
| `SdSession.ReadRefused` | bobflight-configurator/protocol/src/sd-read-mock.ts:373-379 | Why an `sd read` is refused: the first reason that applies; nothing else changes. |
| `SdSession.MalformedOutcome` | bobflight-configurator/protocol/src/sd-read-mock.ts:376-377 | An argument the host cannot have printed is refused as malformed. |
| `SdSession.ReadBegins` | bobflight-configurator/protocol/src/sd-read-mock.ts:378-389 | Any other `sd read` begins with the first fault queued for its sector, unless that fault answers at once. |
| `SdSession.FaultTaken` | bobflight-configurator/protocol/src/sd-read-mock.ts:380-381 | That fault is gone from its queue then; the other queues and the session are as they were. |
| `SdSession.AsyncOutcome` | bobflight-configurator/protocol/src/sd-read-mock.ts:392 | An asynchronous fault ends the read with its own line, and with a failed card exactly when the line says `driver error`. |
| `SdSession.InterruptedOutcome` | bobflight-configurator/protocol/src/sd-read-mock.ts:393-394 | Arming or recording during a read ends it at its poll with that error and that phase. |
| `SdSession.SentOutcome` | bobflight-configurator/protocol/src/sd-read-mock.ts:395-404 | What a sent reply shows, for every fault. |
| `SdSession.ProbeTimerOutcome` | bobflight-configurator/protocol/src/sd-read-mock.ts:363-367 | A probe that is still initialising completes with a card and fails without one. |
| `SdSession.HeldUntilProbed` | bobflight-configurator/protocol/src/sd-read-mock.ts:342-405 | In any run, a session without an active read whose probe is not done begins no read and sends no sector until a probe completes. |
| `SdSession.CancelledNeverAnswers` | bobflight-configurator/protocol/src/sd-read-mock.ts:308-352 | `sd cancel` with a read or a probe under way leaves no read active or in flight and no timer that can fire, and no read begins or answers in any run until a probe completes. |
| `SdSession.CrcFaultStrikesOnce` | bobflight-configurator/protocol/src/sd-read-mock.ts:380-405 | With one CRC fault queued the first read of the sector parses as a CRC mismatch and the second as its bytes. |
| `SdSession.SilencedOnce` | bobflight-configurator/protocol/src/sd-read-mock.ts:317-318 | A silenced line is left unanswered once and changes nothing else. |
| `SdSession.QueuedBehind` | bobflight-configurator/protocol/src/sd-read-mock.ts:286-288 | New faults wait behind those queued for the sector; other sectors' queues stay. |
| `SdFirmware.MockSdCliFirmware.Handle` | bobflight-configurator/protocol/src/sd-read-mock.ts:315-371 | One command line changes the state as the step function says, whose outcome for each line the `SdSession` rows give, and keeps the invariant. |
| `SdFirmware.MockSdCliFirmware.BeginRead` | bobflight-configurator/protocol/src/sd-read-mock.ts:373-388 | The order of the checks before a read begins, and the fault taken from the queue. |
| `SdFirmware.MockSdCliFirmware.ReadTimerFires` | bobflight-configurator/protocol/src/sd-read-mock.ts:389-405 | The background poll: async fault, guard, stale card, or the sector. |
| `SdFirmware.MockSdCliFirmware.ProbeTimerFires` | bobflight-configurator/protocol/src/sd-read-mock.ts:363-367 | A probe completes only while it is still initialising, and only with a card. |
| `SdFirmware.MockSdCliFirmware.CancelRead` | bobflight-configurator/protocol/src/sd-read-mock.ts:308-312 | A cancelled read is closed once and its timer is gone. |
| `SdFirmware.MockSdCliFirmware.TakeSilence` | bobflight-configurator/protocol/src/sd-read-mock.ts:317-318 | The first matching line is taken out of the lines left unanswered. |
| `SdFirmware.MockSdCliFirmware.QueueFaults` | bobflight-configurator/protocol/src/sd-read-mock.ts:286-288 | Faults queue up behind those already waiting for the sector. |
| `SdFirmware.MockSdCliFirmware.ChangeArmed` | bobflight-configurator/protocol/src/sd-read-mock.ts:408-409 | Arming changes the guard only; the invariant stays. |
| `SdFirmware.MockSdCliFirmware.CycleRecording` | bobflight-configurator/protocol/src/sd-read-mock.ts:290-291 | A recording makes the card stale; the invariant stays. |
| `SdDownload.PacketsWhole` | bobflight-configurator/protocol/src/sd-read-mock.ts:442-445 | Together the packets are the text; each but the last has 64 characters and none is empty. |
| `SdDownload.FreshProbe` | bobflight-configurator/protocol/src/sd-read-mock.ts:354-367 | A probe that completes makes a session answer reads, also when the last probe was from before a recording. |
| `SdDownload.FetchSector` | bobflight-configurator/protocol/src/sd-read.ts:239-255 | Command, firmware, packets, collector and parser together return the card's sector. |
| `SdDownload.DownloadCard` | bobflight-configurator/protocol/src/sd-read.ts:5-28 | End to end, over a session that starts with a stale probe: the listing is the stored files sorted, and every download through the command line is the payload stored under that name. |
| `CliClient.MarkersAreFramed` | bobflight-configurator/protocol/src/client.ts:319-323 | The commands with an end marker are exactly the ones whose truncated reply drops the link. |
| `CliClient.StepIsOk` | bobflight-configurator/protocol/src/client.ts:190-333 | Every event keeps at most one command outstanding, leaves settled commands alone, gives a chunk to the outstanding command only, and writes nothing but an accepted `sendRaw`. |
| `CliClient.SettledForGood` | bobflight-configurator/protocol/src/client.ts:308-325 | In every run a settled command never changes again. |
| `CliClient.TextIsWhatWasHeard` | bobflight-configurator/protocol/src/client.ts:230-245 | In every run a command's text is exactly the chunks received while it was the one outstanding. |
| `CliClient.RejectionDrops` | bobflight-configurator/protocol/src/client.ts:313-321 | A rejection drops the link exactly for `save` and for framed commands whose end marker is missing; otherwise the link is untouched. |
| `CliClient.OverflowKeepsLink` | bobflight-configurator/protocol/src/client.ts:313-321 | A concrete run from the start in which a framed command is rejected for its length and the port stays open, attached and connected. |
| `CliClient.TruncatedReplyIsQuarantined` | bobflight-configurator/protocol/src/client.ts:317-320 | After a framed command times out no byte reaches any command and nothing is written until a port is opened anew, whatever else happens. |
| `CliClient.CleanExactly` | bobflight-configurator/protocol/src/client.ts:206-228 | One event keeps the handlers on the current port alone if and only if no opening ends with a port held. |
| `CliClient.CleanThroughout` | bobflight-configurator/protocol/src/client.ts:162-228 | The same for whole runs, both directions. |
| `CliClient.NoLateBytes` | bobflight-configurator/protocol/src/client.ts:317-319 | In such runs a command hears only the port it was written to. |
| `CliClient.OverlappingConnectsMixPorts` | bobflight-configurator/protocol/src/client.ts:162-188 | Two overlapping connects let the first port's bytes reach a command written to the second. |
| `CliClient.BobFlightCliClient.Send` | bobflight-configurator/protocol/src/client.ts:297-333 | A line is written exactly when the port is open, the status is connected and no command is outstanding. |
| `CliClient.BobFlightCliClient.OnData` | bobflight-configurator/protocol/src/client.ts:230-245 | The chunk goes to the collector first, then to the line buffer. |
| `CliClient.BobFlightCliClient.CollectorReads` | bobflight-configurator/protocol/src/client.ts:308-321 | The callbacks let go of a settled collector and disconnect when the rejection calls for it. |
| `CliClient.BobFlightCliClient.DisconnectNow` | bobflight-configurator/protocol/src/client.ts:190-204 | The collector is rejected, the port let go of and closed. |
| `CliClient.BobFlightCliClient.ConnectNow` | bobflight-configurator/protocol/src/client.ts:162-188 | An open port is closed first; otherwise the connect begins and the attempts start again. |
| `CliClient.BobFlightCliClient.OnPortClosed` | bobflight-configurator/protocol/src/client.ts:247-275 | The collector is rejected; a reconnect is scheduled only if enabled, not intended and attempts are left. |
| `CliClient.BobFlightCliClient.OnPortError` | bobflight-configurator/protocol/src/client.ts:211-213 | A port error sets the error status. |
| `CliClient.BobFlightCliClient.HardTimerFires` | bobflight-configurator/protocol/src/client.ts:313-322 | The hard timer settles the outstanding command and may drop the link. |
| `CliClient.BobFlightCliClient.IdleTimerFires` | bobflight-configurator/protocol/src/client.ts:309-312 | The idle timer resolves the outstanding command, if it has no end marker and has heard something. |
| `CliClient.BobFlightCliClient.OpenSucceeds` | bobflight-configurator/protocol/src/client.ts:179-182 | The opened port becomes the current one, with the handlers on it. |
| `CliClient.BobFlightCliClient.OpenFails` | bobflight-configurator/protocol/src/client.ts:184-188 | A failed opening leaves no port and an error status. |
| `CliClient.BobFlightCliClient.CloseFinishes` | bobflight-configurator/protocol/src/client.ts:199-203 | The end of a disconnect, and of the connect that waited for it. |
| `CliClient.BobFlightCliClient.PauseEnds` | bobflight-configurator/protocol/src/client.ts:264-272 | After the pause the reconnect begins, unless the client was disconnected meanwhile. |
| `ClientReplies.LinesHeard` | bobflight-configurator/protocol/src/client.ts:230-245 | While nothing is outstanding the line listeners get the lines of the whole text heard, with one empty line more for each cut between CR and LF. |
| `ClientSession.IdleTimerOutcome` | bobflight-configurator/protocol/src/client.ts:309-322 | The idle timer resolves a command without an end marker that has heard something, and changes nothing for any other. |
| `ClientSession.PortErrorOutcome` | bobflight-configurator/protocol/src/client.ts:211-213 | A port error shows in the status and changes nothing else; one of a port that was let go of changes nothing. |
| `ClientSession.ConnectWhileSaving` | bobflight-configurator/protocol/src/client.ts:163-204 | With `save` outstanding the rejection itself disconnects; the port is closed and the opening still follows. |
| `ClientReplies.WaitsForLastLine` | bobflight-configurator/protocol/src/client.ts:323 | Each framed command waits for the last line of the report it asks for, both given as texts. |
| `ClientReplies.ReportSettles` | bobflight-configurator/protocol/src/client.ts:308-324 | For every report, every command that asks for it, every text of lines none of which ends a reply, and every chunking within the limit, the command resolves with the report. |
| `ClientReplies.UnknownSettles` | bobflight-configurator/protocol/src/client.ts:308-324 | A firmware that does not know the command settles it with its one line. |
| `ClientReplies.RefusalSettles` | bobflight-configurator/protocol/src/client.ts:308-324 | A refused `sd read` settles with the firmware's own error, and the text parses to it. |
| `ClientReplies.ReadSettles` | bobflight-configurator/protocol/src/client.ts:308-324 | For every sector and every chunking of the printed reply, an outstanding `sd read` resolves with a text that parses exactly as the whole reply. |
| `ClientReplies.ReadConversation` | bobflight-configurator/protocol/src/client.ts:162-333 | From a fresh client: connect, send `sd read`, receive the firmware's reply in any chunks; the line was written once and the command resolved with a text that parses to the sector's bytes. |
| `ClientSession.SendOutcome` | bobflight-configurator/protocol/src/client.ts:297-333 | A line is accepted exactly when the port is open, the status connected and nothing outstanding; otherwise nothing changes. |
| `ClientSession.HardTimerOutcome` | bobflight-configurator/protocol/src/client.ts:308-321 | The hard timer rejects a framed command and drops the link; another one resolves with what it heard or is rejected if it heard nothing. |
| `ClientSession.LossOutcome` | bobflight-configurator/protocol/src/client.ts:247-275 | After a lost port a reconnect begins exactly when it is enabled, an attempt is left, the client is not closing and no `save` is outstanding. |
| `ClientSession.ReconnectOutcome` | bobflight-configurator/protocol/src/client.ts:262-272 | After the pause a new port takes over with its handlers and all attempts to spare. |
| `ClientSession.DisconnectOutcome` | bobflight-configurator/protocol/src/client.ts:190-204 | Disconnecting settles every command, lets go of the port and its handlers, closes it and forgets what was buffered. |
| `ClientSession.ConnectOutcome` | bobflight-configurator/protocol/src/client.ts:162-188 | A connect without an open port starts the attempts and the sent commands anew; its opening ends connected or without a port. |
| `ClientSession.ConnectClosesFirst` | bobflight-configurator/protocol/src/client.ts:163-165 | With a port open and no `save` outstanding, that port is closed and let go of first. |
| `GyroNotch.NotchWritePlan` | bobflight-configurator/protocol/src/gyro-notch.ts:62-85 | The plan is safe on every firmware it may meet: each prefix leaves a valid pair and nothing else changed, only arming or the loop rate can stop it, the whole plan ends at the target, a notch that stays on is never off, a refused centre leaves the stored one; at most two writes if the current pair is known. |
| `GyroNotch.ShapeIsSafe` | bobflight-configurator/protocol/src/gyro-notch.ts:62-68 | The same for one firmware, one arming history and one prefix. |
| `GyroNotch.AcceptedKeepsPair` | bobflight-configurator/protocol/src/gyro-notch-mock.ts:62-72 | An accepted `set` keeps the pair rule if and only if its value does not round onto its bound. |
| `GyroNotch.RefusedFor` | bobflight-configurator/protocol/src/gyro-notch-mock.ts:58-72 | Why a `set` is refused: arming first, then an old firmware, and the loop rate last. |
| `GyroNotch.AcceptedExactly` | bobflight-configurator/protocol/src/gyro-notch-mock.ts:50-74 | A `set` is accepted exactly when disarmed and supported, the pair stays valid, and a centre that is not zero is below 0.45 times the loop rate. |
| `GyroNotch.RoundingBreaksPair` | bobflight-configurator/protocol/src/gyro-notch-mock.ts:68-72 | 199.999999 Hz under a centre of 200 Hz is accepted and stored as 200 Hz by rounding to multiples of 1/65536, the float32 spacing there. |
| `GyroNotch.NearestIsRounding` | bobflight-configurator/protocol/src/gyro-notch-mock.ts:68-72 | That rounding keeps order, is idempotent and is exact on the bounds, so it is one the other results speak about. |
| `GyroNotch.AcceptedCenterRuns` | bobflight-configurator/protocol/src/gyro-notch-mock.ts:37-43 | A centre the firmware accepts and stores exactly is reported as running. |
| `GyroNotch.ReportAgrees` | bobflight-configurator/protocol/src/gyro-notch-mock.ts:37-43 | A stored centre is reported as running exactly when setting it again would be accepted, and as too fast exactly when that would be refused for the loop rate. |
| `GyroNotch.ReportedOff` | bobflight-configurator/protocol/src/gyro-notch-mock.ts:37-43 | A notch is reported as off exactly when its centre is zero, as unusable exactly when its pair is not valid or the scenario says so. |
| `GyroNotch.MockGyroNotch.Handle` | bobflight-configurator/protocol/src/gyro-notch-mock.ts:50-74 | The new values and the reply for every line, supported or not: refusals in order, the stored value, the report. |
| `GyroNotch.MockGyroNotch.SetScenario` | bobflight-configurator/protocol/src/gyro-notch-mock.ts:24-30 | Each scenario starts with its stored pairs, its loop rate and the reason it is named after. |
| `HexImage.LoadRecords` | bobflight-firmware/scripts/check_tmotor_image.py:11-35 | The record loop accepts a file if and only if its records are sound, the end record is last and some data is there; the memory is then exactly the union of the data records, its size the sum of their counts. |
| `HexImage.PlaceData` | bobflight-firmware/scripts/check_tmotor_image.py:19-23 | The bytes are stored if and only if all of them are inside the window on fresh addresses. |
| `HexImage.MemoryIsUnique` | bobflight-firmware/scripts/check_tmotor_image.py:18-23 | Records determine the memory. |
| `HexImage.FillingMakesNoMarker` | bobflight-firmware/scripts/check_tmotor_image.py:40-42 | A marker is in the gap-filled image if and only if its bytes were loaded next to each other. |
| `HexImage.Validate` | bobflight-firmware/scripts/check_tmotor_image.py:7-43 | Accepts if and only if the file loads and its image has the stack pointer, a mapped Thumb reset vector and both markers; returns the number of bytes and the end. |
| `HexImage.OneByteBreaksRecord` | bobflight-firmware/scripts/check_tmotor_image.py:15-16 | Changing one byte of an accepted record makes it refused. |
| `HexImage.OneDigitRefused` | bobflight-firmware/scripts/check_tmotor_image.py:11-16 | Changing the value of any one hex digit of an accepted file makes the file refused. |
| `HexImage.FromHexInverts` | bobflight-configurator/ui/scripts/test-flasher-safety.tsx:78 | Reading the encoder's hex text gives its bytes. |
| `HexImage.RecordReadBack` | bobflight-configurator/ui/scripts/test-flasher-safety.tsx:78 | An encoded record is read back as it was. |
| `HexImage.EncodedImageLoads` | bobflight-configurator/ui/scripts/test-flasher-safety.tsx:78-79 | Any one-page image inside the window, cut into records in any way, loads, and the memory is exactly the image. |
| `HexFlash.EitherCase` | bobflight-firmware/scripts/check_tmotor_image.py:16 | Hex digits are read alike in either case. |
| `HexFlash.BlanksByCode` | bobflight-firmware/scripts/check_tmotor_image.py:12-16 | The characters stripped from a line and skipped between hex digits, by code. |
| `HexFlash.LastRecord` | bobflight-firmware/scripts/check_tmotor_image.py:13-38 | After data a file may stop only with the end record, whose four bytes before the checksum are 00 00 00 01. |
| `HexFlash.OtherRecord` | bobflight-firmware/scripts/check_tmotor_image.py:27-37 | Between data and the end, a record other than data is accepted exactly when it selects a page with two bytes or names with four bytes an entry in flash, its own address zero. |
| `HexFlash.DataRecord` | bobflight-firmware/scripts/check_tmotor_image.py:19-26 | A second data record is accepted exactly when it stays in its page, off the byte already programmed and off the sectors the Matek board reserves. |
| `HexFlash.EndRecordText` | bobflight-configurator/ui/scripts/test-flasher-safety.tsx:78-79 | The end record is the text `:00000001FF`. |
| `HexFlash.OneByteLoads` | bobflight-firmware/scripts/check_tmotor_image.py:11-38 | A file that programs one byte loads exactly when that byte is in the 512 KiB of flash and not in the sectors the Matek board reserves. |
| `HexFlash.NothingAfterEnd` | bobflight-firmware/scripts/check_tmotor_image.py:12-16 | A file with a record after the end record does not load. |
| `HexFlash.ImageAccepted` | bobflight-firmware/scripts/check_tmotor_image.py:39-45 | An encoded image at the start of flash is accepted exactly when its first word is 0x20010000, its second an odd address whose even neighbour is in the image, and it contains both markers. |
| `BoardPins.CheckPins` | bobflight-firmware/scripts/board_def.py:312-319 | The loop accepts exactly the claims whose ports exist and whose pins differ. |
| `BoardPins.PackingKeepsApart` | bobflight-firmware/scripts/ir_codegen.py:26-36 | Different pin tokens pack to different pins. |
| `BoardPins.PinPacks` | bobflight-firmware/scripts/ir_codegen.py:26-36 | Every accepted token packs, to the port its letter names and the number its digits spell. |
| `BoardPins.EveryPinHasToken` | bobflight-firmware/scripts/ir_codegen.py:26-36 | Every port and every number up to 15 comes from one accepted token. |
| `BoardPins.OnlyLeadingZerosAreRefused` | bobflight-firmware/scripts/board_def.py:25 | Of the tokens that pack, the checker refuses exactly those with a leading zero, which name a pin another token names. |
| `BoardPins.CheckedPinsStayApart` | bobflight-firmware/scripts/ir_codegen.py:26-36 | Pins accepted by the check are valid, distinct after packing, on the port their second letter names, which the part has, and carry the number their digits spell. |

## Left out

- BlackboxReader.Upper: of the characters whose Python `upper()` is longer than one, only the ligature U+FB02 is mapped, because it is the only one that could be part of an accepted name; for other names outside ASCII the lookup refuses as the source does, with another message.
- FatVolume.Card: a card does not change while it is read. A sector read that throws is a sector of the wrong length, which both readers refuse in the same place.
- Bytes.Result: the readers' error texts are not modelled; which check failed is seen only in the model's own messages.
- SdRead.ParseSdReadReply: a malformed reply is one answer; which of the checks it failed first, the `reason` text of the source, is not modelled. The `timeout` result belongs to `SdSectorReader`.
- SdRead.IsWordChar: the regular expressions are explicit predicates over characters; UTF-16 code units and code points are not told apart.
- CardImage.GoodOptions: the builder is modelled for the options of a FAT32 geometry and at most sixteen uniquely named logs with disjoint chains of exact length outside the root; what it builds from other options, `setDirEntrySize`, `addRootSubdirectory` and `fillDirectoryClusterDeleted` are left out.
- SparseCard.SparseFat32Card.constructor: asks for the options named under `CardImage.GoodOptions`, while the source builds something for any options; about empty files, overlapping or ill-sized chains, more than sixteen files or a geometry that is not FAT32 the contract says nothing.
- SparseCard.SparseFat32Card: sectors are values in a map; that the source hands out the sector arrays themselves is not captured.
- SdDownload.DownloadCard: needs a card of at most 2^32 sectors, the range of the firmware's sector argument. Metadata sectors are read from the card directly and the logs through the firmware, because a Dafny class cannot hold the reader's `readSector` callback; `SdDownload.FetchSector` returns the same bytes for every sector. The client machine, the `sd status` poll and `sd cancel` are not on this path; `ClientReplies.ReadSettles` says that the client settles every such reply.
- SdDownload.FetchSector: one read at a time in a session that may read; the in-flight flag, the command gate, the time-outs and the handling of failed reads in `SdSectorReader` are not modelled.
- SdFirmware.MockSdCliFirmware.Handle: answers other than to `sd read` are kinds of answer, not texts.
- SdFirmware.Next: the card and the host-simulation flag do not change during a run, and `onReadBegin` is an event that follows the beginning of the read. The firmware's step functions mirror its methods branch by branch; what they promise is in the lemmas over runs.
- CliClient.Next: serial ports, listeners and the command allow-list are left out; timers and asynchronous completions are events in any order, so no time bound is stated. The client keeps each collector as the value `Collector.View`; the collector object and its updates in place are `Collector.ResponseCollector`.
- GyroNotch.Rounding: rounding to float32 is any function that keeps order, is idempotent and is exact on the bounds; IEEE rounding over its whole range, number texts and `parseFiltersReport` are left out. Write plans are stated for values that are exact in float32.
- HexImage.Validate: takes the lines of the file and one of the three supported boards; reading the file, splitting it into lines, the SHA-256 digest and the refusal of other board names are left out.
- BoardPins.CheckPins: the other fields of a board definition, its YAML text and the generated header text are left out.
- The status, gyro health, loop rate, RPM filter and motor-direction parsers, the settings methods of the client and the user interface: each is settled by reading one branch.
