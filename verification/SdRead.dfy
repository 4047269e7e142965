/** sd-read.ts: the strict parser of one `sd read` reply, and the reply the firmware prints. */
module SdRead {
  import opened Bytes
  import opened CliFraming
  import opened Collector
  import opened Crc32
  import opened Digits

  const REPLY_CAP: nat := 16384
  const MAX_SECTOR: nat := 4294967295

  // ---------------------------------------------------------------- numbers as text

  function HexDigit(n: nat): char
    requires n < 16
  {
    if n < 10 then '0' + n as char else 'A' + (n - 10) as char
  }

  predicate IsHexDigit(c: char) { '0' <= c <= '9' || 'A' <= c <= 'F' }

  function HexValue(c: char): (n: nat)
    requires IsHexDigit(c)
    ensures n < 16
  {
    if c <= '9' then (c - '0') as nat else (c - 'A') as nat + 10
  }

  predicate IsHexText(s: string) {
    forall i :: 0 <= i < |s| ==> IsHexDigit(s[i])
  }

  function HexByte(b: byte): (s: string)
    ensures |s| == 2
  {
    [HexDigit(b / 16), HexDigit(b % 16)]
  }

  /** Two uppercase digits a byte. */
  function HexText(bytes: seq<byte>): string {
    if bytes == [] then "" else HexText(bytes[..|bytes| - 1]) + HexByte(bytes[|bytes| - 1])
  }

  /** `parseInt(hex.slice(i * 2, i * 2 + 2), 16)` for every byte. */
  function DecodeHex(s: string): (b: seq<byte>)
    requires IsHexText(s) && |s| % 2 == 0
    ensures |b| * 2 == |s|
  {
    if s == "" then []
    else DecodeHex(s[..|s| - 2]) + [HexPair(s[|s| - 2], s[|s| - 1])]
  }

  function HexPair(hi: char, lo: char): byte
    requires IsHexDigit(hi) && IsHexDigit(lo)
  {
    16 * HexValue(hi) + HexValue(lo)
  }

  lemma {:induction false} HexTextShape(bytes: seq<byte>)
    ensures IsHexText(HexText(bytes)) && |HexText(bytes)| == 2 * |bytes|
  {
    if bytes != [] { HexTextShape(bytes[..|bytes| - 1]); }
  }

  lemma DigitOfValue(c: char)
    requires IsHexDigit(c)
    ensures HexDigit(HexValue(c)) == c
  {
  }

  lemma ValueOfDigit(n: nat)
    requires n < 16
    ensures IsHexDigit(HexDigit(n)) && HexValue(HexDigit(n)) == n
  {
  }

  lemma PairOfByte(b: byte)
    ensures var d := HexByte(b);
      IsHexDigit(d[0]) && IsHexDigit(d[1]) && HexPair(d[0], d[1]) == b
  {
    ValueOfDigit(b / 16);
    ValueOfDigit(b % 16);
  }

  lemma ByteOfPair(hi: char, lo: char)
    requires IsHexDigit(hi) && IsHexDigit(lo)
    ensures HexByte(HexPair(hi, lo)) == [hi, lo]
  {
    hide HexDigit, HexValue, IsHexDigit;
    DigitOfValue(hi);
    DigitOfValue(lo);
  }

  lemma DecodeAppend(front: string, tail: string)
    requires IsHexText(front) && |front| % 2 == 0 && IsHexText(tail) && |tail| == 2
    ensures IsHexText(front + tail)
    ensures DecodeHex(front + tail) == DecodeHex(front) + [HexPair(tail[0], tail[1])]
  {
    hide HexPair, IsHexDigit;
    var s := front + tail;
    assert s[..|s| - 2] == front && s[|s| - 2] == tail[0] && s[|s| - 1] == tail[1];
  }

  lemma {:induction false} DecodeInvertsHex(bytes: seq<byte>)
    ensures IsHexText(HexText(bytes)) && |HexText(bytes)| % 2 == 0 && DecodeHex(HexText(bytes)) == bytes
  {
    hide HexByte, HexPair, DecodeHex;
    HexTextShape(bytes);
    if bytes == [] {
      NothingDecoded();
    } else {
      var front, last := bytes[..|bytes| - 1], bytes[|bytes| - 1];
      HexTextShape(front);
      DecodeInvertsHex(front);
      PairOfByte(last);
      DecodeAppend(HexText(front), HexByte(last));
      assert bytes == front + [last];
    }
  }

  lemma NothingDecoded()
    ensures IsHexText("") && DecodeHex("") == []
  {
  }

  lemma {:induction false} HexInvertsDecode(s: string)
    requires IsHexText(s) && |s| % 2 == 0
    ensures HexText(DecodeHex(s)) == s
  {
    hide HexByte, HexPair, IsHexDigit;
    if s == "" {
      NothingDecoded();
    } else {
      var front, hi, lo := s[..|s| - 2], s[|s| - 2], s[|s| - 1];
      HexInvertsDecode(front);
      ByteOfPair(hi, lo);
      assert DecodeHex(s) == DecodeHex(front) + [HexPair(hi, lo)];
      hide DecodeHex;
      HexTextAppend(DecodeHex(front), HexPair(hi, lo));
      hide HexText;
      assert s == front + [hi, lo];
    }
  }

  lemma HexTextAppend(bytes: seq<byte>, b: byte)
    ensures HexText(bytes + [b]) == HexText(bytes) + HexByte(b)
  {
    hide HexByte;
    assert (bytes + [b])[..|bytes|] == bytes;
  }

  function Power(b: nat, k: nat): nat {
    if k == 0 then 1 else b * Power(b, k - 1)
  }

  /** `k` hexadecimal digits of `n`, most significant first. */
  function HexDigits(n: nat, k: nat): string {
    if k == 0 then "" else HexDigits(n / 16, k - 1) + [HexDigit(n % 16)]
  }

  /** `formatCrc32` */
  function FormatCrc32(crc: nat): string { HexDigits(crc, 8) }

  lemma {:induction false} HexDigitsShape(n: nat, k: nat)
    ensures IsHexText(HexDigits(n, k)) && |HexDigits(n, k)| == k
  {
    if k > 0 { HexDigitsShape(n / 16, k - 1); }
  }

  /** Numbers of `k` digits print differently when they differ. */
  lemma {:induction false} HexDigitsInjective(m: nat, n: nat, k: nat)
    requires HexDigits(m, k) == HexDigits(n, k)
    ensures m < Power(16, k) && n < Power(16, k) ==> m == n
    decreases k
  {
    if k > 0 {
      HexDigitsShape(m / 16, k - 1);
      HexDigitsShape(n / 16, k - 1);
      var a, b := HexDigits(m, k), HexDigits(n, k);
      assert a[..k - 1] == HexDigits(m / 16, k - 1) && b[..k - 1] == HexDigits(n / 16, k - 1);
      assert a[k - 1] == HexDigit(m % 16) && b[k - 1] == HexDigit(n % 16);
      HexDigitsInjective(m / 16, n / 16, k - 1);
    }
  }

  /** Different CRCs print differently. */
  lemma FormatInjective(m: nat, n: nat)
    requires m < 0x1_0000_0000 && n < 0x1_0000_0000 && FormatCrc32(m) == FormatCrc32(n)
    ensures m == n
  {
    HexDigitsInjective(m, n, 8);
    assert Power(16, 8) == 0x1_0000_0000;
  }

  /** `String(sector)`: canonical decimal. */
  function Decimal(n: nat): (s: string)
    ensures |s| > 0 && AllDigits(s)
  {
    if n < 10 then ['0' + n as char] else Decimal(n / 10) + ['0' + (n % 10) as char]
  }

  lemma {:induction false} DecimalInjective(m: nat, n: nat)
    requires Decimal(m) == Decimal(n)
    ensures m == n
  {
    var a, b := Decimal(m), Decimal(n);
    if m >= 10 && n >= 10 {
      assert a[..|a| - 1] == Decimal(m / 10) && b[..|b| - 1] == Decimal(n / 10);
      DecimalInjective(m / 10, n / 10);
    }
    assert a[|a| - 1] == b[|b| - 1];
  }

  lemma {:induction false} DecimalLength(n: nat, k: nat)
    requires k > 0 && n < Power(10, k)
    ensures |Decimal(n)| <= k
    decreases k
  {
    if n >= 10 { DecimalLength(n / 10, k - 1); }
  }

  lemma SectorDigits(n: nat)
    requires n <= MAX_SECTOR
    ensures |Decimal(n)| <= 10
  {
    assert Power(10, 10) == 100_0000_0000;
    DecimalLength(n, 10);
  }

  // ---------------------------------------------------------------- reply lines

  /** `splitLines`: trimmed, non-empty lines. */
  function SplitLines(text: string): seq<string> {
    NonEmpty(TrimAll(Split(text)))
  }

  function TrimAll(lines: seq<string>): (r: seq<string>)
    ensures |r| == |lines|
  {
    seq(|lines|, i requires 0 <= i < |lines| => Trim(lines[i]))
  }

  predicate IsErrorLine(line: string) { StartsWith(line, "sd_data_error:") }

  predicate IsWordChar(c: char) {
    'a' <= c <= 'z' || 'A' <= c <= 'Z' || '0' <= c <= '9' || c == '_'
  }

  /** `/^(?:unknown\b|sd unavailable:|sd refused:|command refused:)/` */
  predicate IsRefusal(line: string) {
    || (StartsWith(line, "unknown") && (|line| == 7 || !IsWordChar(line[7])))
    || StartsWith(line, "sd unavailable:")
    || StartsWith(line, "sd refused:")
    || StartsWith(line, "command refused:")
  }

  predicate IsKeyChar(c: char) { 'a' <= c <= 'z' || '0' <= c <= '9' || c == '_' }

  /** Where the run of key characters that starts at `i` ends. */
  function KeyEnd(line: string, i: nat): (j: nat)
    requires i <= |line|
    ensures i <= j <= |line|
    ensures forall k :: i <= k < j ==> IsKeyChar(line[k])
    ensures j < |line| ==> !IsKeyChar(line[j])
    decreases |line| - i
  {
    if i < |line| && IsKeyChar(line[i]) then KeyEnd(line, i + 1) else i
  }

  /** `.` in a JavaScript regular expression. */
  predicate NoTerminator(s: string) {
    forall i :: 0 <= i < |s| ==> s[i] !in "\n\r\U{2028}\U{2029}"
  }

  /** `/^(sd_data_[a-z0-9_]+): (.*)$/` */
  function FieldOf(line: string): Option<(string, string)> {
    if !StartsWith(line, "sd_data_") then None
    else
      var j := KeyEnd(line, 8);
      if j == 8 || j + 2 > |line| || line[j..j + 2] != ": " || !NoTerminator(line[j + 2..]) then None
      else Some((line[..j], line[j + 2..]))
  }

  predicate IsKey(key: string) {
    StartsWith(key, "sd_data_") && |key| > 8 && forall i :: 8 <= i < |key| ==> IsKeyChar(key[i])
  }

  lemma FieldOfMade(key: string, value: string)
    requires IsKey(key) && NoTerminator(value)
    ensures FieldOf(key + ": " + value) == Some((key, value))
  {
    var line := key + ": " + value;
    assert line[..|key|] == key && line[|key|] == ':' && line[|key|..|key| + 2] == ": " && line[|key| + 2..] == value;
    assert StartsWith(line, "sd_data_");
    KeyEndIs(line, 8, |key|);
  }

  lemma {:induction false} KeyEndIs(line: string, i: nat, j: nat)
    requires i <= j < |line| && !IsKeyChar(line[j]) && forall k :: i <= k < j ==> IsKeyChar(line[k])
    ensures KeyEnd(line, i) == j
    decreases j - i
  {
    if i < j { KeyEndIs(line, i + 1, j); }
  }

  lemma FieldMakesLine(line: string)
    requires FieldOf(line).Some?
    ensures line == FieldOf(line).value.0 + ": " + FieldOf(line).value.1
  {
    var j := KeyEnd(line, 8);
    assert line == line[..j] + line[j..j + 2] + line[j + 2..];
  }

  // ---------------------------------------------------------------- what a reply means

  datatype SdReadResult =
    | Data(sector: nat, bytes: seq<byte>, crc: string)
    | CrcMismatch(sector: nat, sentCrc: string, actualCrc: string)
    | Error(sector: nat, line: string)
    | Refused(sector: nat, line: string)
    | Malformed(sector: nat)

  const END_LINE := "sd_data_end: 1"
  const API_LINE := "sd_data_api: 1"

  function SectorLine(sector: nat): string { "sd_data_sector: " + Decimal(sector) }

  function HexLine(bytes: seq<byte>): string { "sd_data_hex: " + HexText(bytes) }

  function CrcLine(crc: string): string { "sd_data_crc32: " + crc }

  /** The five lines of a data reply for `sector`, the end line last, the others in any order. */
  ghost predicate IsFrame(lines: seq<string>, sector: nat, bytes: seq<byte>, sentCrc: string) {
    && |lines| == 5 && lines[4] == END_LINE
    && API_LINE in lines && SectorLine(sector) in lines && HexLine(bytes) in lines && CrcLine(sentCrc) in lines
    && |bytes| == SECTOR_BYTES && |Decimal(sector)| <= 10
    && |sentCrc| == 8 && IsHexText(sentCrc)
  }

  ghost predicate HasFrame(lines: seq<string>, sector: nat) {
    exists bytes, sentCrc :: IsFrame(lines, sector, bytes, sentCrc)
  }

  /** The first line that satisfies a test. */
  function FirstLine(lines: seq<string>, test: string -> bool): Option<string> {
    if lines == [] then None
    else if test(lines[0]) then Some(lines[0])
    else FirstLine(lines[1..], test)
  }

  /** What a reply to `sd read <sector>` says: an error or refusal line wins; otherwise exactly the
    * five data lines for that sector are data, trusted when the CRC line is the CRC of the bytes;
    * anything else is malformed. */
  ghost function Verdict(text: string, sector: nat): SdReadResult {
    if |text| > REPLY_CAP then Malformed(sector) else LinesVerdict(SplitLines(text), sector)
  }

  ghost function LinesVerdict(lines: seq<string>, sector: nat): SdReadResult {
    var error := FirstLine(lines, IsErrorLine);
    var refusal := FirstLine(lines, IsRefusal);
    if error.Some? then Error(sector, error.value)
    else if refusal.Some? then Refused(sector, refusal.value)
    else if HasFrame(lines, sector) then
      var bytes, sentCrc :| IsFrame(lines, sector, bytes, sentCrc);
      FrameVerdict(sector, bytes, sentCrc)
    else Malformed(sector)
  }

  function FrameVerdict(sector: nat, bytes: seq<byte>, sentCrc: string): SdReadResult {
    var actual := FormatCrc32(Crc(bytes));
    if actual == sentCrc then Data(sector, bytes, sentCrc) else CrcMismatch(sector, sentCrc, actual)
  }

  // ---------------------------------------------------------------- frames as field maps

  /** All lines are fields with different keys, gathered in a map. */
  function FieldsOf(lines: seq<string>): Option<map<string, string>> {
    if lines == [] then Some(map[])
    else
      var before := FieldsOf(lines[..|lines| - 1]);
      var field := FieldOf(lines[|lines| - 1]);
      if before.None? || field.None? || field.value.0 in before.value then None
      else Some(before.value[field.value.0 := field.value.1])
  }

  /** The map of a data reply. */
  predicate DataFields(m: map<string, string>, sector: nat, hex: string, crc: string) {
    m == map["sd_data_api" := "1", "sd_data_sector" := Decimal(sector), "sd_data_hex" := hex,
             "sd_data_crc32" := crc, "sd_data_end" := "1"]
  }

  lemma {:induction false} FieldsHoldLines(lines: seq<string>)
    requires FieldsOf(lines).Some?
    ensures |FieldsOf(lines).value| == |lines|
    ensures forall key :: key in FieldsOf(lines).value ==> (key + ": " + FieldsOf(lines).value[key]) in lines
  {
    hide FieldOf;
    if lines != [] {
      var front, last := lines[..|lines| - 1], lines[|lines| - 1];
      FieldsHoldLines(front);
      FieldMakesLine(last);
      var m, f := FieldsOf(front).value, FieldOf(last).value;
      assert m[f.0 := f.1].Keys == m.Keys + {f.0};
      assert |m[f.0 := f.1].Keys| == |m.Keys| + 1;
      assert lines == front + [last];
    }
  }

  /** Fields with pairwise different keys are gathered. */
  lemma {:induction false} FieldsGather(lines: seq<string>)
    requires forall i :: 0 <= i < |lines| ==> FieldOf(lines[i]).Some?
    requires forall i, j :: 0 <= i < j < |lines| ==> FieldOf(lines[i]).value.0 != FieldOf(lines[j]).value.0
    ensures FieldsOf(lines).Some?
    ensures forall key ::
              key in FieldsOf(lines).value <==> exists i :: 0 <= i < |lines| && FieldOf(lines[i]).value.0 == key
    ensures forall i :: 0 <= i < |lines| ==>
        FieldsOf(lines).value[FieldOf(lines[i]).value.0] == FieldOf(lines[i]).value.1
  {
    hide FieldOf;
    if lines != [] {
      var n := |lines| - 1;
      var front := lines[..n];
      FieldsGather(front);
      assert forall i :: 0 <= i < n ==> front[i] == lines[i];
      var m, key := FieldsOf(front).value, FieldOf(lines[n]).value.0;
      assert key !in m;
      assert FieldsOf(lines) == Some(m[key := FieldOf(lines[n]).value.1]);
      forall k ensures k in FieldsOf(lines).value <==> exists i :: 0 <= i < |lines| && FieldOf(lines[i]).value.0 == k {
        if k in m {
          var i :| 0 <= i < n && FieldOf(front[i]).value.0 == k;
          assert FieldOf(lines[i]).value.0 == k;
        }
      }
    }
  }

  // ---------------------------------------------------------------- frames are field maps

  lemma FrameLineFields(sector: nat, bytes: seq<byte>, crc: string)
    requires IsHexText(crc)
    ensures FieldOf(API_LINE) == Some(("sd_data_api", "1")) && FieldOf(END_LINE) == Some(("sd_data_end", "1"))
    ensures FieldOf(SectorLine(sector)) == Some(("sd_data_sector", Decimal(sector)))
    ensures FieldOf(HexLine(bytes)) == Some(("sd_data_hex", HexText(bytes)))
    ensures FieldOf(CrcLine(crc)) == Some(("sd_data_crc32", crc))
  {
    hide FieldOf, SectorLine, HexLine, CrcLine, Decimal, HexText, IsHexText;
    EndFields();
    SectorField(sector);
    HexTextShape(bytes);
    HexField(HexText(bytes), bytes);
    CrcField(crc);
  }

  lemma EndFields()
    ensures FieldOf(API_LINE) == Some(("sd_data_api", "1")) && FieldOf(END_LINE) == Some(("sd_data_end", "1"))
  {
    hide FieldOf;
    assert API_LINE == "sd_data_api" + ": " + "1";
    assert END_LINE == "sd_data_end" + ": " + "1";
    FieldOfMade("sd_data_api", "1");
    FieldOfMade("sd_data_end", "1");
  }

  lemma SectorField(sector: nat)
    ensures FieldOf(SectorLine(sector)) == Some(("sd_data_sector", Decimal(sector)))
  {
    hide FieldOf, Decimal;
    assert SectorLine(sector) == "sd_data_sector" + ": " + Decimal(sector);
    FieldOfMade("sd_data_sector", Decimal(sector));
  }

  lemma HexField(hex: string, bytes: seq<byte>)
    requires hex == HexText(bytes) && IsHexText(hex)
    ensures FieldOf(HexLine(bytes)) == Some(("sd_data_hex", hex))
  {
    hide FieldOf, HexText;
    assert HexLine(bytes) == "sd_data_hex" + ": " + hex;
    FieldOfMade("sd_data_hex", hex);
  }

  lemma CrcField(crc: string)
    requires IsHexText(crc)
    ensures FieldOf(CrcLine(crc)) == Some(("sd_data_crc32", crc))
  {
    hide FieldOf;
    assert CrcLine(crc) == "sd_data_crc32" + ": " + crc;
    FieldOfMade("sd_data_crc32", crc);
  }

  /** Five places hold five different lines, one known to be last: they are exactly those. */
  lemma FivePlaces(lines: seq<string>, a: string, b: string, c: string, d: string, e: string)
    requires |lines| == 5 && lines[4] == e && a in lines && b in lines && c in lines && d in lines
    requires Distinct([a, b, c, d, e])
    ensures Distinct(lines) && forall i :: 0 <= i < 5 ==> lines[i] in [a, b, c, d, e]
  {
    var all := [a, b, c, d, e];
    assert all[0] == a && all[1] == b && all[2] == c && all[3] == d && all[4] == e;
    var i :| 0 <= i < 5 && lines[i] == a;
    var j :| 0 <= j < 5 && lines[j] == b;
    var k :| 0 <= k < 5 && lines[k] == c;
    var l :| 0 <= l < 5 && lines[l] == d;
    assert {i, j, k, l} == {0, 1, 2, 3};
  }

  /** The key and value of each of the five data lines. */
  function FrameFieldList(sector: nat, bytes: seq<byte>, crc: string): seq<(string, string)> {
    [("sd_data_api", "1"), ("sd_data_sector", Decimal(sector)), ("sd_data_hex", HexText(bytes)),
     ("sd_data_crc32", crc), ("sd_data_end", "1")]
  }

  lemma KeysDiffer(sector: nat, bytes: seq<byte>, crc: string)
    ensures var f := FrameFieldList(sector, bytes, crc); Distinct([f[0].0, f[1].0, f[2].0, f[3].0, f[4].0])
  {
    hide Decimal, HexText;
    var f := FrameFieldList(sector, bytes, crc);
    assert f[0].0[8] == 'a' && f[1].0[8] == 's' && f[2].0[8] == 'h' && f[3].0[8] == 'c' && f[4].0[8] == 'e';
  }

  /** The five data lines, in any order, gather into the data fields. */
  lemma FrameFields(lines: seq<string>, sector: nat, bytes: seq<byte>, crc: string)
    requires IsFrame(lines, sector, bytes, crc)
    ensures FieldsOf(lines).Some? && DataFields(FieldsOf(lines).value, sector, HexText(bytes), crc)
  {
    hide FieldOf, FieldsOf, IsHexText, SectorLine, HexLine, CrcLine, Decimal, HexText, FrameFieldList, DataFields;
    FrameLineFields(sector, bytes, crc);
    var all := [API_LINE, SectorLine(sector), HexLine(bytes), CrcLine(crc), END_LINE];
    FrameFieldsMatch(sector, bytes, crc, all);
    KeysDiffer(sector, bytes, crc);
    FivePlaces(lines, all[0], all[1], all[2], all[3], all[4]);
    FieldsAre(lines, all, FrameFieldList(sector, bytes, crc));
    ListedFields(FieldsOf(lines).value, sector, bytes, crc);
  }

  lemma FrameFieldsMatch(sector: nat, bytes: seq<byte>, crc: string, all: seq<string>)
    requires all == [API_LINE, SectorLine(sector), HexLine(bytes), CrcLine(crc), END_LINE] && IsHexText(crc)
    ensures |FrameFieldList(sector, bytes, crc)| == 5
    ensures forall x :: 0 <= x < 5 ==> FieldOf(all[x]) == Some(FrameFieldList(sector, bytes, crc)[x])
  {
    hide FieldOf, IsHexText, SectorLine, HexLine, CrcLine, Decimal, HexText;
    FrameLineFields(sector, bytes, crc);
  }

  lemma ListedFields(m: map<string, string>, sector: nat, bytes: seq<byte>, crc: string)
    requires var f := FrameFieldList(sector, bytes, crc);
      m == map[f[0].0 := f[0].1, f[1].0 := f[1].1, f[2].0 := f[2].1, f[3].0 := f[3].1, f[4].0 := f[4].1]
    ensures DataFields(m, sector, HexText(bytes), crc)
  {
    hide Decimal, HexText;
  }

  /** Five lines whose keys differ gather into the map of their fields. */
  lemma FieldsAre(lines: seq<string>, all: seq<string>, f: seq<(string, string)>)
    requires |lines| == 5 == |all| == |f| && Distinct([f[0].0, f[1].0, f[2].0, f[3].0, f[4].0])
    requires Distinct(lines) && forall i :: 0 <= i < 5 ==> lines[i] in all
    requires forall x :: 0 <= x < 5 ==> all[x] in lines && FieldOf(all[x]) == Some(f[x])
    ensures FieldsOf(lines).Some?
    ensures FieldsOf(lines).value ==
            map[f[0].0 := f[0].1, f[1].0 := f[1].1, f[2].0 := f[2].1, f[3].0 := f[3].1, f[4].0 := f[4].1]
  {
    hide FieldOf, FieldsOf;
    var keys := [f[0].0, f[1].0, f[2].0, f[3].0, f[4].0];
    var values := [f[0].1, f[1].1, f[2].1, f[3].1, f[4].1];
    forall x | 0 <= x < 5 ensures FieldOf(all[x]) == Some((keys[x], values[x])) {
      assert f[x] == (keys[x], values[x]);
    }
    FieldsDiffer(lines, all, keys, values);
    FieldsGather(lines);
    var m := FieldsOf(lines).value;
    forall key ensures key in m <==> key in keys {
      KeyListed(lines, all, keys, values, key);
    }
    forall x | 0 <= x < 5 ensures m[keys[x]] == values[x] {
      var i :| 0 <= i < 5 && lines[i] == all[x];
    }
    FiveKeys(m, keys, values);
  }

  lemma FieldsDiffer(lines: seq<string>, all: seq<string>, keys: seq<string>, values: seq<string>)
    requires |lines| == 5 == |all| == |keys| == |values| && Distinct(keys) && Distinct(lines)
    requires forall i :: 0 <= i < 5 ==> lines[i] in all
    requires forall x :: 0 <= x < 5 ==> FieldOf(all[x]) == Some((keys[x], values[x]))
    ensures forall i :: 0 <= i < 5 ==> FieldOf(lines[i]).Some?
    ensures forall i, j :: 0 <= i < j < 5 ==> FieldOf(lines[i]).value.0 != FieldOf(lines[j]).value.0
  {
    hide FieldOf;
    forall i, j | 0 <= i < j < 5 ensures FieldOf(lines[i]).value.0 != FieldOf(lines[j]).value.0 {
      var x :| 0 <= x < 5 && all[x] == lines[i];
      var y :| 0 <= y < 5 && all[y] == lines[j];
    }
  }

  lemma KeyListed(lines: seq<string>, all: seq<string>, keys: seq<string>, values: seq<string>, key: string)
    requires |lines| == 5 == |all| == |keys| == |values|
    requires forall i :: 0 <= i < 5 ==> lines[i] in all && FieldOf(lines[i]).Some?
    requires forall x :: 0 <= x < 5 ==> all[x] in lines && FieldOf(all[x]) == Some((keys[x], values[x]))
    ensures (exists i :: 0 <= i < 5 && FieldOf(lines[i]).value.0 == key) <==> key in keys
  {
    hide FieldOf;
    if i :| 0 <= i < 5 && FieldOf(lines[i]).value.0 == key {
      var x :| 0 <= x < 5 && all[x] == lines[i];
      assert keys[x] == key;
    }
    if x :| 0 <= x < 5 && keys[x] == key {
      var i :| 0 <= i < 5 && lines[i] == all[x];
    }
  }

  lemma FiveKeys(m: map<string, string>, keys: seq<string>, values: seq<string>)
    requires |keys| == 5 == |values| && Distinct(keys) && (forall key :: key in m <==> key in keys)
    requires forall x :: 0 <= x < 5 ==> m[keys[x]] == values[x]
    ensures m == map[keys[0] := values[0], keys[1] := values[1], keys[2] := values[2], keys[3] := values[3],
                     keys[4] := values[4]]
  {
  }

  /** Conversely, data fields gathered from lines that end with the end line are those five lines. */
  lemma FieldsFrame(lines: seq<string>, sector: nat, hex: string, crc: string)
    requires FieldsOf(lines).Some? && DataFields(FieldsOf(lines).value, sector, hex, crc)
    requires lines != [] && lines[|lines| - 1] == END_LINE
    requires IsHexText(hex) && |hex| == 1024 && IsHexText(crc) && |crc| == 8 && |Decimal(sector)| <= 10
    ensures IsFrame(lines, sector, DecodeHex(hex), crc)
  {
    hide FieldsOf, IsHexText, Decimal, DecodeHex, HexText, HexLine, SectorLine, CrcLine;
    FieldsHoldLines(lines);
    HexInvertsDecode(hex);
    var m := FieldsOf(lines).value;
    FiveFields(m, sector, hex, crc);
    FrameLines(m, lines, sector, DecodeHex(hex), crc);
    hide DataFields;
  }

  lemma FrameLines(m: map<string, string>, lines: seq<string>, sector: nat, bytes: seq<byte>, crc: string)
    requires DataFields(m, sector, HexText(bytes), crc)
    requires forall key :: key in m ==> (key + ": " + m[key]) in lines
    ensures API_LINE in lines && SectorLine(sector) in lines && HexLine(bytes) in lines && CrcLine(crc) in lines
  {
    hide Decimal, HexText, HexLine, SectorLine, CrcLine;
    FiveFields(m, sector, HexText(bytes), crc);
    hide DataFields;
    MadeLines(sector, bytes, crc);
    LineOfKey(m, lines, "sd_data_api", "1");
    LineOfKey(m, lines, "sd_data_sector", Decimal(sector));
    LineOfKey(m, lines, "sd_data_hex", HexText(bytes));
    LineOfKey(m, lines, "sd_data_crc32", crc);
  }

  lemma FiveFields(m: map<string, string>, sector: nat, hex: string, crc: string)
    requires DataFields(m, sector, hex, crc)
    ensures |m| == 5 && "sd_data_api" in m && m["sd_data_api"] == "1"
    ensures "sd_data_sector" in m && m["sd_data_sector"] == Decimal(sector)
    ensures "sd_data_hex" in m && m["sd_data_hex"] == hex && "sd_data_crc32" in m && m["sd_data_crc32"] == crc
  {
    hide Decimal;
    KeysDiffer(sector, [], crc);
  }

  lemma LineOfKey(m: map<string, string>, lines: seq<string>, key: string, value: string)
    requires key in m && m[key] == value && (forall k :: k in m ==> (k + ": " + m[k]) in lines)
    ensures key + ": " + value in lines
  {
  }

  lemma MadeLines(sector: nat, bytes: seq<byte>, crc: string)
    ensures "sd_data_api" + ": " + "1" == API_LINE && "sd_data_sector" + ": " + Decimal(sector) == SectorLine(sector)
    ensures "sd_data_hex" + ": " + HexText(bytes) == HexLine(bytes) && "sd_data_crc32" + ": " + crc == CrcLine(crc)
  {
    hide Decimal, HexText;
  }

  /** A frame determines the bytes and the CRC text it carries. */
  lemma FrameUnique(lines: seq<string>, sector: nat, bytes: seq<byte>, crc: string, bytes': seq<byte>, crc': string)
    requires IsFrame(lines, sector, bytes, crc) && IsFrame(lines, sector, bytes', crc')
    ensures bytes == bytes' && crc == crc'
  {
    hide IsFrame, FieldsOf, HexText, Decimal;
    FrameFields(lines, sector, bytes, crc);
    FrameFields(lines, sector, bytes', crc');
    var m := FieldsOf(lines).value;
    assert m["sd_data_hex"] == HexText(bytes) == HexText(bytes');
    assert m["sd_data_crc32"] == crc == crc';
    DecodeInvertsHex(bytes);
    DecodeInvertsHex(bytes');
  }

  // ---------------------------------------------------------------- the parser

  /** `/^(?:0|[1-9][0-9]{0,9})$/` */
  predicate IsCanonical(s: string) { |s| <= 10 && IsDecimal(s) }

  lemma {:induction false} DecimalCanonical(n: nat)
    ensures Decimal(n)[0] == '0' ==> |Decimal(n)| == 1
    ensures n > 0 ==> Decimal(n)[0] != '0'
  {
    if n >= 10 {
      DecimalCanonical(n / 10);
      assert Decimal(n)[0] == Decimal(n / 10)[0];
    }
  }

  const FIELD_NAMES: seq<string> := ["sd_data_api", "sd_data_sector", "sd_data_hex", "sd_data_crc32", "sd_data_end"]

  /** What the checks after the field loop ask of the gathered fields. */
  predicate ChecksPass(m: map<string, string>, sector: nat) {
    && "sd_data_api" in m && m["sd_data_api"] == "1"
    && "sd_data_sector" in m && IsCanonical(m["sd_data_sector"]) && m["sd_data_sector"] == Decimal(sector)
    && "sd_data_hex" in m && |m["sd_data_hex"]| == 1024 && IsHexText(m["sd_data_hex"])
    && "sd_data_crc32" in m && |m["sd_data_crc32"]| == 8 && IsHexText(m["sd_data_crc32"])
    && forall key :: key in m ==> key in FIELD_NAMES
  }

  /** The checks accept exactly the frames. */
  lemma ChecksAreFrame(lines: seq<string>, sector: nat)
    ensures HasFrame(lines, sector) ==> FieldsOf(lines).Some? && ChecksPass(FieldsOf(lines).value, sector)
                                        && lines[|lines| - 1] == END_LINE
  {
    hide FieldsOf, FieldOf, IsHexText, Decimal, HexText, IsCanonical, ChecksPass;
    if bytes, crc :| IsFrame(lines, sector, bytes, crc) {
      FrameFields(lines, sector, bytes, crc);
      HexTextShape(bytes);
      CanonicalDecimal(sector);
      DataFieldsPass(FieldsOf(lines).value, sector, HexText(bytes), crc);
    }
  }

  lemma CanonicalDecimal(n: nat)
    requires |Decimal(n)| <= 10
    ensures IsCanonical(Decimal(n))
  {
    DecimalCanonical(n);
  }

  lemma DataFieldsPass(m: map<string, string>, sector: nat, hex: string, crc: string)
    requires DataFields(m, sector, hex, crc) && IsCanonical(Decimal(sector))
    requires |hex| == 1024 && IsHexText(hex) && |crc| == 8 && IsHexText(crc)
    ensures ChecksPass(m, sector)
  {
    hide IsHexText, Decimal, IsCanonical;
    NamesListed();
  }

  lemma NamesListed()
    ensures FIELD_NAMES[0] == "sd_data_api" && FIELD_NAMES[1] == "sd_data_sector" && FIELD_NAMES[2] == "sd_data_hex"
    ensures FIELD_NAMES[3] == "sd_data_crc32" && FIELD_NAMES[4] == "sd_data_end" && |FIELD_NAMES| == 5
  {
  }

  lemma ChecksMakeFrame(lines: seq<string>, sector: nat)
    requires FieldsOf(lines).Some? && ChecksPass(FieldsOf(lines).value, sector)
    requires lines != [] && lines[|lines| - 1] == END_LINE
    ensures var m := FieldsOf(lines).value;
      |m["sd_data_hex"]| % 2 == 0 && IsFrame(lines, sector, DecodeHex(m["sd_data_hex"]), m["sd_data_crc32"])
  {
    hide IsHexText, IsFrame, DecodeHex, Decimal, FieldsOf, DataFields;
    var m := FieldsOf(lines).value;
    EndFieldStored(lines);
    PassedAreDataFields(m, sector);
    FieldsFrame(lines, sector, m["sd_data_hex"], m["sd_data_crc32"]);
  }

  lemma PassedAreDataFields(m: map<string, string>, sector: nat)
    requires ChecksPass(m, sector) && "sd_data_end" in m && m["sd_data_end"] == "1"
    ensures DataFields(m, sector, m["sd_data_hex"], m["sd_data_crc32"])
  {
    hide IsHexText, Decimal, IsCanonical;
    NamesListed();
  }

  lemma EndFieldStored(lines: seq<string>)
    requires FieldsOf(lines).Some? && lines != [] && lines[|lines| - 1] == END_LINE
    ensures "sd_data_end" in FieldsOf(lines).value && FieldsOf(lines).value["sd_data_end"] == "1"
  {
    hide FieldOf;
    FrameLineFields(0, [], "");
  }

  /** A frame without error or refusal line is judged by its own bytes and CRC. */
  lemma VerdictOfFrame(lines: seq<string>, sector: nat, bytes: seq<byte>, crc: string)
    requires IsFrame(lines, sector, bytes, crc)
    requires FirstLine(lines, IsErrorLine).None? && FirstLine(lines, IsRefusal).None?
    ensures LinesVerdict(lines, sector) == FrameVerdict(sector, bytes, crc)
  {
    hide IsFrame, FrameVerdict;
    forall b, c | IsFrame(lines, sector, b, c) ensures b == bytes && c == crc {
      FrameUnique(lines, sector, bytes, crc, b, c);
    }
  }

  lemma {:induction false} FieldsPrefix(lines: seq<string>, k: nat)
    requires k <= |lines| && FieldsOf(lines[..k]).None?
    ensures FieldsOf(lines).None?
  {
    if k < |lines| {
      assert lines[..|lines| - 1][..k] == lines[..k];
      FieldsPrefix(lines[..|lines| - 1], k);
    } else {
      assert lines[..k] == lines;
    }
  }

  /** The loop that fills the field Map. */
  method GatherFields(lines: seq<string>) returns (r: Option<map<string, string>>)
    ensures r == FieldsOf(lines)
  {
    hide FieldOf;
    var fields: map<string, string> := map[];
    for i := 0 to |lines|
      invariant FieldsOf(lines[..i]) == Some(fields)
    {
      assert lines[..i + 1][..i] == lines[..i];
      var m := FieldOf(lines[i]);
      if m.None? || m.value.0 in fields {
        FieldsPrefix(lines, i + 1);
        return None;
      }
      fields := fields[m.value.0 := m.value.1];
    }
    assert lines[..|lines|] == lines;
    r := Some(fields);
  }

  /** The loop that fills the byte array. */
  method DecodeSector(hex: string) returns (bytes: seq<byte>)
    requires |hex| == 1024 && IsHexText(hex)
    ensures bytes == DecodeHex(hex)
  {
    hide HexPair, IsHexDigit;
    bytes := [];
    for i := 0 to 512
      invariant bytes == DecodeHex(hex[..2 * i])
    {
      assert hex[..2 * i + 2] == hex[..2 * i] + hex[2 * i..2 * i + 2];
      DecodeAppend(hex[..2 * i], hex[2 * i..2 * i + 2]);
      bytes := bytes + [HexPair(hex[2 * i], hex[2 * i + 1])];
    }
    assert hex[..1024] == hex;
  }

  /** `parseSdReadReply`: the strict parser answers the meaning of the reply. */
  method ParseSdReadReply(text: string, sector: nat, table: array<bv32>) returns (r: SdReadResult)
    requires IsCrcTable(table[..])
    ensures r == Verdict(text, sector)
  {
    hide SplitLines, FieldsOf, IsHexText, IsCanonical, Decimal, HasFrame, DecodeHex, FirstLine, FormatCrc32, Crc;
    if |text| > REPLY_CAP { return Malformed(sector); }
    var lines := SplitLines(text);
    var error := FirstLine(lines, IsErrorLine);
    if error.Some? { return Error(sector, error.value); }
    var refusal := FirstLine(lines, IsRefusal);
    if refusal.Some? { return Refused(sector, refusal.value); }
    ChecksAreFrame(lines, sector);
    var gathered := GatherFields(lines);
    if gathered.None? { return Malformed(sector); }
    var fields := gathered.value;
    if lines == [] || lines[|lines| - 1] != END_LINE { return Malformed(sector); }
    if !ChecksPass(fields, sector) { return Malformed(sector); }
    ChecksMakeFrame(lines, sector);
    var bytes := DecodeSector(fields["sd_data_hex"]);
    VerdictOfFrame(lines, sector, bytes, fields["sd_data_crc32"]);
    var crc := Crc32Ieee(table, bytes);
    var actual := FormatCrc32(crc);
    if actual != fields["sd_data_crc32"] { return CrcMismatch(sector, fields["sd_data_crc32"], actual); }
    return Data(sector, bytes, fields["sd_data_crc32"]);
  }

  // ---------------------------------------------------------------- the firmware's reply

  function ReplyHeader(shown: nat): string {
    "sd_data_api: 1\r\nsd_data_sector: " + Decimal(shown) + "\r\nsd_data_hex: "
  }

  function ReplyFooter(crc: string): string {
    "\r\nsd_data_crc32: " + crc + "\r\nsd_data_end: 1\r\n"
  }

  /** The three writes of a data reply, one after the other. */
  function PrintReply(shown: nat, bytes: seq<byte>, crc: string): string {
    ReplyHeader(shown) + HexText(bytes) + ReplyFooter(crc)
  }

  function ReplyLines(shown: nat, bytes: seq<byte>, crc: string): seq<string> {
    [API_LINE, SectorLine(shown), HexLine(bytes), CrcLine(crc), END_LINE]
  }

  lemma SplitLine(line: string, rest: string)
    requires NoBreak(line)
    ensures Split(line + "\r\n" + rest) == [line] + Split(rest)
  {
    hide Split;
    var t := line + "\r\n" + rest;
    assert t[..|line|] == line && t[|line|] == '\r' && t[|line| + 1] == '\n' && t[|line| + 2..] == rest;
    SplitFirst(t, |line|);
  }

  lemma NumbersHaveNoBreak(shown: nat, bytes: seq<byte>, crc: string)
    requires IsHexText(crc)
    ensures NoBreak(API_LINE) && NoBreak(SectorLine(shown)) && NoBreak(HexLine(bytes)) && NoBreak(CrcLine(crc))
        && NoBreak(END_LINE)
  {
    HexTextShape(bytes);
  }

  /** The printed reply is the five lines, each ended by CRLF. */
  lemma PrintedLines(shown: nat, bytes: seq<byte>, crc: string)
    requires IsHexText(crc)
    ensures Split(PrintReply(shown, bytes, crc)) == ReplyLines(shown, bytes, crc) + [""]
  {
    hide Split, HexText, Decimal, NoBreak, PrintReply, SectorLine, HexLine, CrcLine;
    NumbersHaveNoBreak(shown, bytes, crc);
    PrintedPieces(shown, bytes, crc);
    var e := END_LINE + "\r\n" + "";
    var d := CrcLine(crc) + "\r\n" + e;
    var c := HexLine(bytes) + "\r\n" + d;
    var b := SectorLine(shown) + "\r\n" + c;
    SplitLine(API_LINE, b);
    SplitLine(SectorLine(shown), c);
    SplitLine(HexLine(bytes), d);
    SplitLine(CrcLine(crc), e);
    SplitLine(END_LINE, "");
    assert Split("") == [""] by { SplitNothing(); }
  }

  /** The three writes, regrouped line by line. */
  lemma PrintedPieces(shown: nat, bytes: seq<byte>, crc: string)
    ensures PrintReply(shown, bytes, crc)
         == API_LINE + "\r\n" + (SectorLine(shown) + "\r\n"
            + (HexLine(bytes) + "\r\n" + (CrcLine(crc) + "\r\n" + (END_LINE + "\r\n" + ""))))
  {
    hide HexText, Decimal, ReplyHeader, ReplyFooter, SectorLine, CrcLine;
    HeaderPieces(shown);
    FooterPieces(crc);
    Regroup(API_LINE, "\r\n", SectorLine(shown), "sd_data_hex: ", HexText(bytes),
            CrcLine(crc) + "\r\n" + (END_LINE + "\r\n" + ""));
  }

  lemma HeaderPieces(shown: nat)
    ensures ReplyHeader(shown) == API_LINE + "\r\n" + SectorLine(shown) + "\r\n" + "sd_data_hex: "
  {
    hide Decimal;
    var x, k := "\r\n", "sd_data_sector: ";
    assert "sd_data_api: 1\r\nsd_data_sector: " == API_LINE + x + k;
    assert "\r\nsd_data_hex: " == x + "sd_data_hex: ";
    RegroupFive(API_LINE + x, k, Decimal(shown), x, "sd_data_hex: ");
  }

  lemma FooterPieces(crc: string)
    ensures ReplyFooter(crc) == "\r\n" + (CrcLine(crc) + "\r\n" + (END_LINE + "\r\n" + ""))
  {
    var x, k, e := "\r\n", "sd_data_crc32: ", END_LINE + "\r\n" + "";
    assert "\r\nsd_data_crc32: " == x + k;
    assert "\r\nsd_data_end: 1\r\n" == x + e;
    RegroupTail(x, k, crc, x, e);
  }

  lemma Regroup(a: string, x: string, s: string, k: string, h: string, f: string)
    ensures (a + x + s + x + k) + h + (x + f) == a + x + (s + x + ((k + h) + x + f))
  {
  }

  lemma RegroupFive(a: string, k: string, n: string, x: string, h: string)
    ensures (a + k) + n + (x + h) == a + (k + n) + x + h
  {
  }

  lemma RegroupTail(x: string, k: string, n: string, y: string, e: string)
    ensures (x + k) + n + (y + e) == x + ((k + n) + y + e)
  {
  }

  lemma SplitNothing()
    ensures Split("") == [""]
  {
  }

  predicate Tight(s: string) { s != "" && !IsSpace(s[0]) && !IsSpace(s[|s| - 1]) }

  lemma TrimTight(s: string)
    requires Tight(s)
    ensures Trim(s) == s
  {
    hide IsSpace;
  }

  lemma ReplyLinesTight(shown: nat, bytes: seq<byte>, crc: string)
    requires IsHexText(crc) && crc != "" && bytes != []
    ensures forall i :: 0 <= i < 5 ==> Tight(ReplyLines(shown, bytes, crc)[i])
  {
    hide HexText, Decimal, Tight, IsSpace;
    HexTextShape(bytes);
    assert Tight(API_LINE) && Tight(END_LINE) by { FixedLinesTight(); }
    LastTight("sd_data_sector: ", Decimal(shown));
    LastTight("sd_data_hex: ", HexText(bytes));
    LastTight("sd_data_crc32: ", crc);
  }

  lemma FixedLinesTight()
    ensures Tight(API_LINE) && Tight(END_LINE)
  {
    hide IsSpace;
    SpaceIsNoWord('s');
    SpaceIsNoWord('1');
  }

  lemma SpaceIsNoWord(c: char)
    requires 'a' <= c <= 'z' || IsHexDigit(c)
    ensures !IsSpace(c)
  {
  }

  /** A key and a value that ends in a digit. */
  lemma LastTight(key: string, value: string)
    requires key != "" && key[0] == 's' && value != "" && IsHexDigit(value[|value| - 1])
    ensures Tight(key + value)
  {
    hide IsSpace;
    var line := key + value;
    SpaceIsNoWord(line[0]);
    assert line[|line| - 1] == value[|value| - 1];
    SpaceIsNoWord(line[|line| - 1]);
  }

  lemma {:induction false} NonEmptyAll(lines: seq<string>)
    requires forall i :: 0 <= i < |lines| ==> lines[i] != ""
    ensures NonEmpty(lines) == lines && NonEmpty(lines + [""]) == lines
  {
    NonEmptyDropsLast(lines);
    if lines != [] {
      var front, last := lines[..|lines| - 1], lines[|lines| - 1];
      NonEmptyAll(front);
      assert NonEmpty(lines) == NonEmpty(front) + [last];
      hide NonEmpty;
      assert lines == front + [last];
    }
  }

  lemma NonEmptyDropsLast(lines: seq<string>)
    ensures NonEmpty(lines + [""]) == NonEmpty(lines)
  {
    assert (lines + [""])[..|lines|] == lines;
  }

  lemma PrintedSplitLines(shown: nat, bytes: seq<byte>, crc: string)
    requires IsHexText(crc) && crc != "" && bytes != []
    ensures SplitLines(PrintReply(shown, bytes, crc)) == ReplyLines(shown, bytes, crc)
  {
    hide Split, PrintReply, Tight, ReplyLines, Trim;
    var l := ReplyLines(shown, bytes, crc);
    FiveLines(shown, bytes, crc);
    PrintedLines(shown, bytes, crc);
    ReplyLinesTight(shown, bytes, crc);
    forall i | 0 <= i < 5 ensures Trim(l[i]) == l[i] && l[i] != "" {
      TrimTight(l[i]);
      assert l[i] != "" by { TightNotEmpty(l[i]); }
    }
    assert Trim("") == "" by { TrimNothing(); }
    assert TrimAll(l + [""]) == l + [""];
    NonEmptyAll(l);
  }

  lemma FiveLines(shown: nat, bytes: seq<byte>, crc: string)
    ensures |ReplyLines(shown, bytes, crc)| == 5 && ReplyLines(shown, bytes, crc)[4] == END_LINE
  {
  }

  lemma TightNotEmpty(s: string)
    requires Tight(s)
    ensures s != ""
  {
  }

  lemma TrimNothing()
    ensures Trim("") == ""
  {
  }

  /** None of the lines is an error, a refusal or an early stop. */
  lemma ReplyLinesQuiet(shown: nat, bytes: seq<byte>, crc: string)
    ensures var l := ReplyLines(shown, bytes, crc);
      && FirstLine(l, IsErrorLine).None? && FirstLine(l, IsRefusal).None?
  {
    hide HexText, Decimal;
    var l := ReplyLines(shown, bytes, crc);
    forall i | 0 <= i < 5 ensures !IsErrorLine(l[i]) && !IsRefusal(l[i]) {
      assert l[0][8] == 'a' && l[1][8] == 's' && l[2][8] == 'h' && l[3][8] == 'c' && l[4][9] == 'n';
      assert l[i][0] == 's' && l[i][2] == '_' && l[i][3] == 'd';
    }
    NoneFound(l, IsErrorLine);
    NoneFound(l, IsRefusal);
  }

  lemma {:induction false} NoneFound(lines: seq<string>, test: string -> bool)
    requires forall i :: 0 <= i < |lines| ==> !test(lines[i])
    ensures FirstLine(lines, test).None?
  {
    if lines != [] { NoneFound(lines[1..], test); }
  }

  lemma PrintedLength(shown: nat, bytes: seq<byte>, crc: string)
    requires shown <= MAX_SECTOR && |bytes| == SECTOR_BYTES && |crc| == 8
    ensures |PrintReply(shown, bytes, crc)| <= REPLY_CAP
  {
    hide HexText, Decimal;
    SectorDigits(shown);
    HexTextShape(bytes);
  }

  /** Parsing the firmware's text for the requested sector gives its bytes and CRC text, judged. */
  lemma PrintedVerdict(sector: nat, bytes: seq<byte>, crc: string)
    requires sector <= MAX_SECTOR && |bytes| == SECTOR_BYTES && |crc| == 8 && IsHexText(crc)
    ensures Verdict(PrintReply(sector, bytes, crc), sector) == FrameVerdict(sector, bytes, crc)
  {
    hide PrintReply, FrameVerdict, HexText, Decimal, SplitLines, LinesVerdict;
    PrintedLength(sector, bytes, crc);
    PrintedSplitLines(sector, bytes, crc);
    ReplyLinesQuiet(sector, bytes, crc);
    SectorDigits(sector);
    var l := ReplyLines(sector, bytes, crc);
    assert l[0] == API_LINE && l[1] == SectorLine(sector) && l[2] == HexLine(bytes) && l[3] == CrcLine(crc);
    assert IsFrame(l, sector, bytes, crc);
    VerdictOfFrame(l, sector, bytes, crc);
  }

  lemma FormattedShape(n: nat)
    ensures |FormatCrc32(n)| == 8 && IsHexText(FormatCrc32(n))
  {
    HexDigitsShape(n, 8);
  }

  /** Print and parse: for every sector number and every 512 bytes the parser returns those bytes. */
  lemma RoundTrip(sector: nat, bytes: seq<byte>)
    requires sector <= MAX_SECTOR && |bytes| == SECTOR_BYTES
    ensures var crc := FormatCrc32(Crc(bytes));
      Verdict(PrintReply(sector, bytes, crc), sector) == Data(sector, bytes, crc)
  {
    hide Verdict, PrintReply, FormatCrc32;
    FormattedShape(Crc(bytes));
    PrintedVerdict(sector, bytes, FormatCrc32(Crc(bytes)));
  }

  /** A reply whose bytes were changed inside four consecutive bytes after the CRC was taken is a CRC
    * mismatch, whatever the sector held: never data, never malformed. */
  lemma BurstIsMismatch(sector: nat, bytes: seq<byte>, bytes': seq<byte>, i: nat, k: nat)
    requires sector <= MAX_SECTOR && |bytes| == |bytes'| == SECTOR_BYTES
    requires k <= 4 && i + k <= SECTOR_BYTES
    requires bytes[..i] == bytes'[..i] && bytes[i + k..] == bytes'[i + k..] && bytes != bytes'
    ensures var crc := FormatCrc32(Crc(bytes));
      Verdict(PrintReply(sector, bytes', crc), sector) == CrcMismatch(sector, crc, FormatCrc32(Crc(bytes')))
  {
    hide Verdict, PrintReply, FormatCrc32;
    FormattedShape(Crc(bytes));
    PrintedVerdict(sector, bytes', FormatCrc32(Crc(bytes)));
    BurstDetected(bytes, bytes', i, k);
    if FormatCrc32(Crc(bytes)) == FormatCrc32(Crc(bytes')) { FormatInjective(Crc(bytes), Crc(bytes')); }
  }

  /** A reply for another sector is malformed, whatever it carries. */
  lemma WrongSectorIsMalformed(sector: nat, shown: nat, bytes: seq<byte>, crc: string)
    requires shown != sector && |bytes| == SECTOR_BYTES && |crc| == 8 && IsHexText(crc)
    ensures Verdict(PrintReply(shown, bytes, crc), sector) == Malformed(sector)
  {
    hide PrintReply, HexText, SplitLines, Decimal, IsHexText, FirstLine;
    PrintedSplitLines(shown, bytes, crc);
    ReplyLinesQuiet(shown, bytes, crc);
    var l := ReplyLines(shown, bytes, crc);
    if SectorLine(sector) in l { OnlySectorLine(shown, bytes, crc, sector); }
  }

  lemma OnlySectorLine(shown: nat, bytes: seq<byte>, crc: string, sector: nat)
    requires SectorLine(sector) in ReplyLines(shown, bytes, crc)
    ensures sector == shown
  {
    hide HexText, Decimal;
    var l := ReplyLines(shown, bytes, crc);
    assert SectorLine(sector)[8] == 's' && l[0][8] == 'a' && l[2][8] == 'h' && l[3][8] == 'c' && l[4][8] == 'e';
    assert l[1][16..] == Decimal(shown) && SectorLine(sector)[16..] == Decimal(sector);
    DecimalInjective(shown, sector);
  }

  /** A reply without data. */
  function ErrorReply(line: string): string { line + "\r\nsd_data_end: 1\r\n" }

  lemma ErrorReplyPieces(line: string)
    ensures ErrorReply(line) == line + "\r\n" + (END_LINE + "\r\n" + "")
  {
  }

  /** The firmware's replies without data: an error line and the end line are reported as that error. */
  lemma ErrorReplyIsError(sector: nat, line: string)
    requires IsErrorLine(line) && NoBreak(line) && Tight(line) && |line| + 18 <= REPLY_CAP
    ensures Verdict(ErrorReply(line), sector) == Error(sector, line)
  {
    ErrorReplyPieces(line);
    hide Split, Trim, IsErrorLine, Tight, NoBreak;
    var text := line + "\r\n" + (END_LINE + "\r\n" + "");
    SplitLine(line, END_LINE + "\r\n" + "");
    assert Split(END_LINE + "\r\n" + "") == [END_LINE] + Split("") by { EndLineHasNoBreak(); SplitLine(END_LINE, ""); }
    SplitNothing();
    assert Split(text) == [line, END_LINE, ""];
    TrimTight(line);
    TrimTightEnd();
    TightNotEmpty(line);
    TrimNothing();
    assert TrimAll([line, END_LINE, ""]) == [line, END_LINE, ""];
    assert NonEmpty([line, END_LINE]) == [line, END_LINE] && NonEmpty([line, END_LINE, ""]) == [line, END_LINE] by {
      NonEmptyAll([line, END_LINE]);
      assert [line, END_LINE] + [""] == [line, END_LINE, ""];
    }
    assert SplitLines(text) == [line, END_LINE];
  }

  lemma NoneIsBreak(s: string)
    requires '\r' !in s && '\n' !in s
    ensures NoBreak(s)
  {
  }

  lemma NoBreakConcat(a: string, b: string)
    requires NoBreak(a) && NoBreak(b)
    ensures NoBreak(a + b)
  {
  }

  lemma EndLineHasNoBreak()
    ensures NoBreak(END_LINE)
  {
  }

  lemma TrimTightEnd()
    ensures Trim(END_LINE) == END_LINE
  {
    TrimTight(END_LINE);
  }

  /** The reply is framed for the collector: only its last line stops it. */
  lemma PrintedIsFramed(shown: nat, bytes: seq<byte>, crc: string)
    requires IsHexText(crc) && crc != "" && bytes != []
    ensures Framed(END_LINE, PrintReply(shown, bytes, crc))
  {
    hide Split, PrintReply, HexText, Decimal, Tight, ReplyLines, StopsReply;
    PrintedLines(shown, bytes, crc);
    ReplyLinesTight(shown, bytes, crc);
    FiveLines(shown, bytes, crc);
    var l := ReplyLines(shown, bytes, crc);
    assert Complete(PrintReply(shown, bytes, crc)) == l;
    assert StopsReply(END_LINE, l[4]) by { EndLineStops(); }
    forall i | 0 <= i < 4 ensures !StopsReply(END_LINE, l[i]) { DataLineGoesOn(shown, bytes, crc, i); }
  }

  lemma EndLineStops()
    ensures StopsReply(END_LINE, END_LINE)
  {
  }

  lemma DataLineGoesOn(shown: nat, bytes: seq<byte>, crc: string, i: nat)
    requires i < 4 && Tight(ReplyLines(shown, bytes, crc)[i])
    ensures !StopsReply(END_LINE, ReplyLines(shown, bytes, crc)[i])
  {
    hide HexText, Decimal, Tight, Trim;
    var l := ReplyLines(shown, bytes, crc);
    TrimTight(l[i]);
    assert l[i][0] == 's' && l[i][8] in "ashc" && END_LINE[8] == 'e';
  }

  /** However the reply is cut into chunks, the collector settles once and what it settles with is
    * parsed like the whole reply. */
  lemma ChunkedReply(shown: nat, bytes: seq<byte>, crc: string, sector: nat, chunks: seq<string>)
    requires shown <= MAX_SECTOR && |bytes| == SECTOR_BYTES && |crc| == 8 && IsHexText(crc)
    requires Concat(chunks) == PrintReply(shown, bytes, crc)
    ensures var v := AfterChunks(END_LINE, REPLY_CAP, chunks);
      v.outcome.Some? && v.outcome.value.Resolved?
      && Verdict(v.outcome.value.text, sector) == Verdict(PrintReply(shown, bytes, crc), sector)
  {
    hide PrintReply, Framed, Split, LinesVerdict, Concat;
    PrintedLength(shown, bytes, crc);
    PrintedIsFramed(shown, bytes, crc);
    FramedReplySettles(END_LINE, REPLY_CAP, chunks);
  }
}
