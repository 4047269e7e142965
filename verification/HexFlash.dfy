/** check_tmotor_image.py on encoded images, with its addresses and vectors written out: what of a flash
  * image decides that it is accepted. */
module HexFlash {
  import opened Bytes
  import opened SdRead
  import opened HexImage

  // ---------------------------------------------------------------- known records

  /** The end record. */
  lemma EndRecordText()
    ensures RecordText([0, 0, 0, 1]) == ":00000001FF"
  {
    EndChecksum();
    assert [0, 0, 0, 1] + [0xff] == [0, 0, 0, 1, 0xff];
    HexTextOfFive(0, 0, 0, 1, 0xff);
    EndDigits();
    hide Checksum, HexText, HexByte;
    assert RecordText([0, 0, 0, 1]) == ":" + ("00" + "00" + "00" + "01" + "FF");
  }

  lemma EndChecksum()
    ensures Checksum([0, 0, 0, 1]) == 0xff
  {
    SumOfFour(0, 0, 0, 1);
  }

  lemma EndDigits()
    ensures HexByte(0) == "00" && HexByte(1) == "01" && HexByte(0xff) == "FF"
  {
  }

  lemma SumOfFour(a: byte, b: byte, c: byte, d: byte)
    ensures Sum([a, b, c, d]) == a as nat + b as nat + c as nat + d as nat
  {
    SumAppend([], a);
    SumAppend([a], b);
    SumAppend([a, b], c);
    SumAppend([a, b, c], d);
    assert Sum([]) == 0;
    hide Sum;
    assert [] + [a] == [a] && [a] + [b] == [a, b] && [a, b] + [c] == [a, b, c] && [a, b, c] + [d] == [a, b, c, d];
  }

  lemma HexTextOfFive(a: byte, b: byte, c: byte, d: byte, e: byte)
    ensures HexText([a, b, c, d, e]) == HexByte(a) + HexByte(b) + HexByte(c) + HexByte(d) + HexByte(e)
  {
    hide HexText, HexByte;
    OneByteText(a);
    AddByteText([a], b, [a, b]);
    AddByteText([a, b], c, [a, b, c]);
    AddByteText([a, b, c], d, [a, b, c, d]);
    AddByteText([a, b, c, d], e, [a, b, c, d, e]);
  }

  lemma OneByteText(b: byte)
    ensures HexText([b]) == HexByte(b)
  {
    assert [b][..0] == [];
  }

  lemma AddByteText(front: seq<byte>, b: byte, bytes: seq<byte>)
    requires bytes == front + [b]
    ensures HexText(bytes) == HexText(front) + HexByte(b)
  {
    HexTextAppend(front, b);
  }

  /** The characters that the checker strips from a line, and those it skips between hex digits, by code. */
  lemma BlanksByCode(c: char)
    ensures IsAsciiSpace(c) <==> 9 <= c as int <= 13 || c as int == 32
    ensures var code := c as int;
      IsSpaceChar(c) <==>
        || 9 <= code <= 13 || 28 <= code <= 32 || code in {133, 160, 5760, 8239, 8287, 12288}
        || 8192 <= code <= 8202 || 8232 <= code <= 8233
  {
  }

  /** Hex digits are read alike in either case. */
  lemma {:induction false} EitherCase(s: string, t: string)
    requires |s| == |t| && forall i :: 0 <= i < |s| ==> SameDigit(t[i], s[i])
    ensures FromHex(t) == FromHex(s)
  {
    hide SameDigit, HexDigitOf, IsAsciiSpace;
    if s != "" {
      DigitsMatch(t[0], s[0]);
      if IsAsciiSpace(s[0]) {
        EitherCase(s[1..], t[1..]);
      } else if |s| >= 2 {
        DigitsMatch(t[1], s[1]);
        EitherCase(s[2..], t[2..]);
      }
    }
  }

  /** The same character, or its lower-case hex digit. */
  predicate SameDigit(c: char, d: char) { c == d || ('A' <= d <= 'F' && c as int == d as int + 32) }

  lemma DigitsMatch(c: char, d: char)
    requires SameDigit(c, d)
    ensures HexDigitOf(c) == HexDigitOf(d) && (IsAsciiSpace(c) <==> IsAsciiSpace(d))
  {
  }

  /** The texts an accepted image contains. */
  lemma MarkerTexts()
    ensures Name(MatekF722Px) == "matek_f722_px" && Name(TmotorF7V2) == "tmotor_f7_v2"
    ensures Name(KakuteF7Hdv) == "kakute_f7_hdv"
    ensures Version(TmotorF7V2) == "0.2.0-prototype-tmotorf7v2-sensor2-bl1-calstore2-flightdev1"
    ensures Version(KakuteF7Hdv) == "0.2.0-prototype-flightdev1-bl1-calstore2-piddiag2"
  {
  }

  lemma MatekText()
    ensures Version(MatekF722Px) == "0.2.0-prototype-matekf722px-bench1-crsf1-bl1-"
                                  + "store13-cal2-mount1-actual1-dshot1-flashprobe1-bb4-baro1"
  {
  }

  // ---------------------------------------------------------------- the window

  /** Flash is 512 KiB from 0x08000000; the Matek image leaves 0x08004000 to 0x0800BFFF to its settings. */
  predicate InFlashWindow(board: Board, a: nat) {
    if board == MatekF722Px then 0x0800_0000 <= a < 0x0800_4000 || 0x0800_c000 <= a < 0x0808_0000
    else 0x0800_0000 <= a < 0x0808_0000
  }

  /** A file that programs one byte loads exactly when that byte is in the window of its board. */
  lemma OneByteLoads(board: Board, page: nat, at: nat, b: byte)
    requires page < 0x1_0000 && at < 0x1_0000
    ensures GoodChunks(at, [[b]])
    ensures Loads(board, EncodedImage(page, at, [[b]])) <==> InFlashWindow(board, 0x1_0000 * page + at)
  {
    hide RecordText, Loads, EncodedImage;
    assert Flat([[b]]) == [b] by { assert [[b]][..0] == []; }
    assert InWindow(board, 0x1_0000 * page + at) <==> InFlashWindow(board, 0x1_0000 * page + at);
    if InWindow(board, 0x1_0000 * page + at) {
      EncodedImageLoads(board, page, at, [[b]]);
    } else {
      OneByteOutside(board, page, at, b);
    }
  }

  lemma OneByteOutside(board: Board, page: nat, at: nat, b: byte)
    requires page < 0x1_0000 && at < 0x1_0000 && GoodChunks(at, [[b]]) && !InWindow(board, 0x1_0000 * page + at)
    ensures !Loads(board, EncodedImage(page, at, [[b]]))
  {
    OneByteRecords(page, at, b);
    var ext, data, end := Record(0, 4, [page / 256, page % 256]), Record(at, 0, [b]), Record(0, 1, []);
    var records := [ext, data, end];
    PageNumber(page);
    assert Upper(records, 1) == 0x1_0000 * page;
    assert StartOf(records, 1) == 0x1_0000 * page + at;
    assert Covers(records, 1, 0x1_0000 * page + at);
    hide Upper, InWindow, EncodedImage, RecordsOf;
  }

  /** The three records of such a file. */
  lemma OneByteRecords(page: nat, at: nat, b: byte)
    requires page < 0x1_0000 && at < 0x1_0000 && GoodChunks(at, [[b]])
    ensures RecordsOf(EncodedImage(page, at, [[b]]))
         == Some([Record(0, 4, [page / 256, page % 256]), Record(at, 0, [b]), Record(0, 1, [])])
  {
    hide RecordText, RecordsOf;
    var ext, data, end := Record(0, 4, [page / 256, page % 256]), Record(at, 0, [b]), Record(0, 1, []);
    assert [[b]][..0] == [] && Flat([]) == [];
    var first := LinesUpTo(page, at, []);
    FirstLineRead(page);
    DataLineRead(first, at, [b]);
    EndLineRead(first + [DataText(at, [b])]);
    assert LinesUpTo(page, at, [[b]]) == first + [DataText(at, [b])];
    assert [ext] + [data] == [ext, data] && [ext, data] + [end] == [ext, data, end];
  }

  /** Nothing may follow the end record. */
  lemma NothingAfterEnd(board: Board, lines: seq<string>, bytes: seq<byte>)
    requires Loads(board, lines) && |bytes| >= 4 && |bytes| == bytes[0] as int + 4
    ensures !Loads(board, lines + [RecordText(bytes)])
  {
    hide RecordText, RecordsOf, Inside, Once, KindOk;
    RecordsStep(lines, bytes);
    var records := RecordsOf(lines).value;
    var more := RecordsOf(lines + [RecordText(bytes)]).value;
    assert more[|records| - 1] == records[|records| - 1];
  }

  // ---------------------------------------------------------------- one more record

  /** The records of a file that selects the page at the start of flash, programs its first byte and goes on. */
  function Opening(b: byte): seq<Record> { [Record(0, 4, [8, 0]), Record(0, 0, [b])] }

  /** The lines of such a file, with the record of these bytes third. */
  function GoesOn(b: byte, bytes: seq<byte>): seq<string> {
    [RecordText([2, 0, 0, 4, 8, 0]), RecordText([1, 0, 0, 0, b]), RecordText(bytes)]
  }

  function Shown(bytes: seq<byte>): Record
    requires |bytes| >= 4
  {
    Record(256 * (bytes[1] as int) + bytes[2] as int, bytes[3], bytes[4..])
  }

  lemma GoesOnRecords(b: byte, bytes: seq<byte>)
    requires |bytes| >= 4 && |bytes| == bytes[0] as int + 4
    ensures RecordsOf(GoesOn(b, bytes)) == Some(Opening(b) + [Shown(bytes)])
    ensures RecordsOf(GoesOn(b, bytes) + [RecordText([0, 0, 0, 1])])
         == Some(Opening(b) + [Shown(bytes)] + [Record(0, 1, [])])
  {
    hide RecordText, RecordsOf;
    var page, first: seq<byte> := [2, 0, 0, 4, 8, 0], [1, 0, 0, 0, b];
    assert page[4..] == [8, 0] && first[4..] == [b];
    OneRecord(page);
    RecordsStep([RecordText(page)], first);
    RecordsStep([RecordText(page)] + [RecordText(first)], bytes);
    assert GoesOn(b, bytes) == [RecordText(page)] + [RecordText(first)] + [RecordText(bytes)];
    assert [Record(0, 4, [8, 0])] + [Record(0, 0, [b])] == Opening(b);
    EndLineRead(GoesOn(b, bytes));
  }

  /** Which addresses such records program. */
  lemma OpeningCovers(records: seq<Record>, b: byte)
    requires |records| >= 3 && records[..2] == Opening(b)
    ensures forall at: nat :: !Covers(records, 0, at)
    ensures forall at: nat :: Covers(records, 1, at) <==> at == 0x0800_0000
    ensures forall at: nat :: Covers(records, 2, at) <==>
                         records[2].kind == 0 && 0 <= at - 0x0800_0000 - records[2].address < |records[2].data|
  {
    assert records[0] == records[..2][0] && records[1] == records[..2][1];
    assert BigEndian([8, 0]) == 0x800 by { PageNumber(0x800); }
    assert Upper(records, 1) == 0x0800_0000 && Upper(records, 2) == 0x0800_0000;
  }

  lemma OpeningHasData(b: byte, more: seq<Record>)
    requires |more| <= 2
    ensures DataBytes(Opening(b) + more) > 0
  {
    hide DataBytes;
    DataBytesStep([Record(0, 4, [8, 0])], Record(0, 0, [b]));
    assert [Record(0, 4, [8, 0])] + [Record(0, 0, [b])] == Opening(b);
    if more == [] {
      assert Opening(b) + more == Opening(b);
    } else {
      DataBytesStep(Opening(b), more[0]);
      if |more| == 1 {
        assert Opening(b) + more == Opening(b) + [more[0]];
      } else {
        DataBytesStep(Opening(b) + [more[0]], more[1]);
        assert Opening(b) + more == Opening(b) + [more[0]] + [more[1]];
      }
    }
  }

  /** Such a file may stop there only with the end record. */
  lemma LastRecord(board: Board, b: byte, bytes: seq<byte>)
    requires |bytes| >= 4 && |bytes| == bytes[0] as int + 4
    ensures Loads(board, GoesOn(b, bytes)) <==> bytes == [0, 0, 0, 1]
  {
    hide GoesOn, RecordsOf, Covers, DataBytes, BigEndian, InWindow;
    var more := Shown(bytes);
    GoesOnRecords(b, bytes);
    var records := Opening(b) + [more];
    assert records[..2] == Opening(b);
    OpeningCovers(records, b);
    EndCoversNothing(records);
    OpeningHasData(b, [more]);
    FirstInWindow(board);
    OpeningKinds(b);
    assert records[0] == Opening(b)[0] && records[1] == Opening(b)[1] && records[2] == more;
    hide KindOk;
    if more.kind == 1 { EndKind(bytes); }
  }

  lemma EndKind(bytes: seq<byte>)
    requires |bytes| >= 4 && |bytes| == bytes[0] as int + 4 && bytes[3] == 1
    ensures KindOk(Shown(bytes)) <==> bytes == [0, 0, 0, 1]
  {
  }

  lemma FirstInWindow(board: Board)
    ensures InWindow(board, 0x0800_0000)
  {
  }

  /** Between the data and the end, a record other than data may select a page with two bytes, or name with
    * four an entry in flash; its own address is zero. */
  predicate MayFollow(bytes: seq<byte>)
    requires |bytes| >= 4 && |bytes| == bytes[0] as int + 4
  {
    && bytes[1] == 0 && bytes[2] == 0
    && ((bytes[3] == 4 && bytes[0] == 2) || (bytes[3] == 5 && bytes[0] == 4 && bytes[4] == 8 && bytes[5] < 8))
  }

  lemma OtherRecord(board: Board, b: byte, bytes: seq<byte>)
    requires |bytes| >= 4 && |bytes| == bytes[0] as int + 4 && bytes[3] != 0
    ensures Loads(board, GoesOn(b, bytes) + [RecordText([0, 0, 0, 1])]) <==> MayFollow(bytes)
  {
    hide GoesOn, RecordsOf, Covers, DataBytes, KindOk, InWindow, MayFollow;
    var more, end := Shown(bytes), Record(0, 1, []);
    GoesOnRecords(b, bytes);
    var records := Opening(b) + [more] + [end];
    assert records[..2] == Opening(b) && records[2] == more && records[3] == end;
    OpeningCovers(records, b);
    EndCoversNothing(records);
    OpeningHasData(b, [more, end]);
    assert Opening(b) + [more, end] == records;
    FirstInWindow(board);
    OpeningKinds(b);
    OtherKinds(bytes);
    assert records[0] == Opening(b)[0] && records[1] == Opening(b)[1];
  }

  lemma EndCoversNothing(records: seq<Record>)
    requires |records| >= 3 && forall i :: 3 <= i < |records| ==> records[i].kind != 0
    ensures forall i: nat, at: nat :: i >= 3 ==> !Covers(records, i, at)
  {
  }

  lemma OpeningKinds(b: byte)
    ensures KindOk(Record(0, 4, [8, 0])) && KindOk(Record(0, 0, [b])) && KindOk(Record(0, 1, []))
  {
  }

  lemma OtherKinds(bytes: seq<byte>)
    requires |bytes| >= 4 && |bytes| == bytes[0] as int + 4 && bytes[3] != 0
    ensures KindOk(Shown(bytes)) && Shown(bytes).kind != 1 <==> MayFollow(bytes)
  {
    hide BigEndian;
    if bytes[3] == 5 && bytes[0] == 4 {
      BigEndianOfFour(bytes[4], bytes[5], bytes[6], bytes[7]);
      assert bytes[4..] == [bytes[4], bytes[5], bytes[6], bytes[7]];
    }
  }

  lemma BigEndianOfFour(a: byte, b: byte, c: byte, d: byte)
    ensures BigEndian([a, b, c, d])
         == 0x100_0000 * (a as nat) + 0x1_0000 * (b as nat) + 0x100 * (c as nat) + d as nat
  {
    BigEndianStep([], a);
    BigEndianStep([a], b);
    BigEndianStep([a, b], c);
    BigEndianStep([a, b, c], d);
    assert BigEndian([]) == 0;
    hide BigEndian;
    assert [] + [a] == [a] && [a] + [b] == [a, b] && [a, b] + [c] == [a, b, c] && [a, b, c] + [d] == [a, b, c, d];
  }

  lemma BigEndianStep(data: seq<byte>, b: byte)
    ensures BigEndian(data + [b]) == 256 * BigEndian(data) + b as nat
  {
    assert (data + [b])[..|data|] == data;
  }

  /** A further data record must stay in its page, off the byte already programmed, and off the settings of
    * the Matek board; without data it may be anywhere in the page. */
  lemma DataRecord(board: Board, b: byte, at: nat, data: seq<byte>)
    requires at < 0x1_0000 && |data| < 256
    ensures Loads(board, GoesOn(b, [|data|, at / 256, at % 256, 0] + data) + [RecordText([0, 0, 0, 1])]) <==>
              && at + |data| <= 0x1_0000
              && (data != [] ==> at > 0 && (board == MatekF722Px ==> at + |data| <= 0x4000 || at >= 0xc000))
  {
    hide GoesOn, RecordsOf, DataBytes, KindOk, InWindow, RecordText, Covers;
    var bytes: seq<byte> := [|data|, at / 256, at % 256, 0] + data;
    var more, end := Record(at, 0, data), Record(0, 1, []);
    assert bytes[4..] == data;
    assert Shown(bytes) == more;
    GoesOnRecords(b, bytes);
    var records := Opening(b) + [more] + [end];
    assert records[..2] == Opening(b) && records[2] == more && records[3] == end;
    OpeningCovers(records, b);
    EndCoversNothing(records);
    OpeningHasData(b, [more, end]);
    assert Opening(b) + [more, end] == records;
    OpeningKinds(b);
    assert KindOk(more) <==> at + |data| <= 0x1_0000 by { DataKind(more); }
    FirstInWindow(board);
    assert records[0] == Opening(b)[0] && records[1] == Opening(b)[1];
    if at + |data| <= 0x1_0000 {
      DataInside(board, b, records, at, data);
      DataOnce(b, records, at, data);
    }
  }

  lemma DataKind(r: Record)
    requires r.kind == 0
    ensures KindOk(r) <==> r.address + |r.data| <= 0x1_0000
  {
  }

  lemma DataInside(board: Board, b: byte, records: seq<Record>, at: nat, data: seq<byte>)
    requires records == Opening(b) + [Record(at, 0, data)] + [Record(0, 1, [])] && at + |data| <= 0x1_0000
    requires |data| < 256
    ensures Inside(board, records) <==>
              data == [] || board != MatekF722Px || at + |data| <= 0x4000 || at >= 0xc000
  {
    assert records[..2] == Opening(b) && records[2] == Record(at, 0, data);
    OpeningCovers(records, b);
    EndCoversNothing(records);
    hide Covers;
    if data != [] && board == MatekF722Px && at + |data| > 0x4000 && at < 0xc000 {
      var a := if at < 0x4000 then 0x4000 else at;
      assert Covers(records, 2, 0x0800_0000 + a);
    }
  }

  lemma DataOnce(b: byte, records: seq<Record>, at: nat, data: seq<byte>)
    requires records == Opening(b) + [Record(at, 0, data)] + [Record(0, 1, [])]
    ensures Once(records) <==> data == [] || at > 0
  {
    assert records[..2] == Opening(b) && records[2] == Record(at, 0, data);
    OpeningCovers(records, b);
    EndCoversNothing(records);
    hide Covers;
    if data != [] && at == 0 { assert Covers(records, 1, 0x0800_0000) && Covers(records, 2, 0x0800_0000); }
  }

  // ---------------------------------------------------------------- the image

  /** The number four bytes stand for, low byte first. */
  function Word(image: seq<byte>, i: nat): nat
    requires i + 4 <= |image|
  {
    image[i] as nat + 0x100 * (image[i + 1] as nat) + 0x1_0000 * (image[i + 2] as nat)
    + 0x100_0000 * (image[i + 3] as nat)
  }

  /** An image at the start of flash is accepted exactly when its first word is the stack pointer 0x20010000,
    * its second an odd address one above a byte of the image, and both markers are among its bytes. */
  lemma ImageAccepted(board: Board, chunks: seq<seq<byte>>)
    requires GoodChunks(0, chunks) && chunks != [] && (board == MatekF722Px ==> |Flat(chunks)| <= 0x4000)
    ensures var image := Flat(chunks);
      Accepts(board, EncodedImage(0x0800, 0, chunks)) <==>
        && |image| >= 8 && Word(image, 0) == 0x2001_0000
        && Word(image, 4) % 2 == 1 && 0x0800_0001 <= Word(image, 4) <= 0x0800_0000 + |image|
        && (exists i: nat :: FoundAt(image, Name(board), i)) && (exists i: nat :: FoundAt(image, Version(board), i))
  {
    hide EncodedImage, Flat, Name, Version, FoundAt, HasMarker, Loads, MemoryIs, RecordsOf, VectorOk, Placed, MarkerAt;
    var image, lines := Flat(chunks), EncodedImage(0x0800, 0, chunks);
    assert ImageFits(board, 0x0800, 0, |image|);
    EncodedImageLoads(board, 0x0800, 0, chunks);
    var memory := Placed(map[], 0x0800_0000, image);
    assert RecordsOf(lines).Some? by { LoadsHasRecords(board, lines); }
    VectorOfImage(image);
    MarkerOfImage(image, Name(board));
    MarkerOfImage(image, Version(board));
    if ImageOk(board, memory) { assert Accepts(board, lines); }
  }

  lemma LoadsHasRecords(board: Board, lines: seq<string>)
    requires Loads(board, lines)
    ensures RecordsOf(lines).Some? && Records(lines) == RecordsOf(lines).value
  {
  }

  lemma VectorOfImage(image: seq<byte>)
    ensures VectorOk(Placed(map[], 0x0800_0000, image)) <==>
              && |image| >= 8 && Word(image, 0) == 0x2001_0000
              && Word(image, 4) % 2 == 1 && 0x0800_0001 <= Word(image, 4) <= 0x0800_0000 + |image|
  {
    hide Placed;
  }

  lemma MarkerOfImage(image: seq<byte>, marker: string)
    requires marker != ""
    ensures HasMarker(Placed(map[], 0x0800_0000, image), marker) <==> exists i: nat :: FoundAt(image, marker, i)
  {
    hide Placed, AsciiByte;
    var memory := Placed(map[], 0x0800_0000, image);
    if i: nat :| FoundAt(image, marker, i) {
      assert MarkerAt(memory, marker, 0x0800_0000 + i);
    }
    if at: nat :| MarkerAt(memory, marker, at) {
      assert ByteIs(memory, at + 0, marker[0]) && ByteIs(memory, at + (|marker| - 1), marker[|marker| - 1]);
      forall j | 0 <= j < |marker| ensures image[at - 0x0800_0000 + j] == AsciiByte(marker[j]) {
        assert ByteIs(memory, at + j, marker[j]);
      }
      assert FoundAt(image, marker, at - 0x0800_0000);
    }
  }
}
