/** The texts of sd-read.ts and sd-read-mock.ts character by character: how bytes, CRCs and refusals are
  * written, and what the host makes of the replies that carry no data. */
module ReplyTexts {
  import opened Bytes
  import opened CliFraming
  import opened Collector
  import opened Digits
  import FatChains
  import FatVolume
  import opened SdRead
  import SdFirmware

  const HEX_CHARS := "0123456789ABCDEF"

  // ---------------------------------------------------------------- digits

  lemma HexCharsAre(n: nat)
    requires n < 16
    ensures |HEX_CHARS| == 16 && HexDigit(n) == HEX_CHARS[n]
  {
  }

  /** Byte `i` is written as its high and its low digit. */
  lemma {:induction false} HexTextIs(bytes: seq<byte>, i: nat)
    requires i < |bytes|
    ensures |HexText(bytes)| == 2 * |bytes| && |HEX_CHARS| == 16
    ensures HexText(bytes)[2 * i] == HEX_CHARS[bytes[i] / 16] && HexText(bytes)[2 * i + 1] == HEX_CHARS[bytes[i] % 16]
  {
    hide HexDigit;
    var n := |bytes| - 1;
    HexTextShape(bytes);
    HexTextShape(bytes[..n]);
    HexCharsAre(bytes[i] / 16);
    HexCharsAre(bytes[i] % 16);
    if i < n { HexTextIs(bytes[..n], i); }
  }

  /** Digit `i` of `k` counts the powers of sixteen from the left. */
  lemma {:induction false} HexDigitsAre(n: nat, k: nat, i: nat)
    requires i < k
    ensures |HexDigits(n, k)| == k && |HEX_CHARS| == 16 && Power(16, k - 1 - i) > 0
    ensures HexDigits(n, k)[i] == HEX_CHARS[n / Power(16, k - 1 - i) % 16]
    decreases k
  {
    hide HexDigit;
    HexDigitsShape(n, k);
    HexDigitsShape(n / 16, k - 1);
    HexCharsAre(n % 16);
    PowerPositive(k - 1 - i);
    if i < k - 1 {
      HexDigitsAre(n / 16, k - 1, i);
      PowerPositive(k - 2 - i);
      DivTwice(n, Power(16, k - 2 - i));
    }
  }

  lemma {:induction false} PowerPositive(k: nat)
    ensures Power(16, k) > 0
  {
    if k > 0 { PowerPositive(k - 1); }
  }

  lemma DivTwice(n: nat, b: nat)
    requires b > 0
    ensures n / 16 / b == n / (16 * b)
  {
    var q, r := n / 16, n % 16;
    var s, t := q / b, q % b;
    FatChains.DivModSplit(q, b);
    FatChains.MulAssoc(s, b, 16);
    assert n == s * (b * 16) + (16 * t + r);
    QuotientIs(n, b * 16, s, 16 * t + r);
  }

  lemma QuotientIs(n: nat, d: nat, q: nat, r: nat)
    requires n == q * d + r && r < d
    ensures n / d == q
  {
    FatChains.DivModSplit(n, d);
    FatChains.Distribute(q, 1, d);
    FatChains.Distribute(n / d, 1, d);
    if q < n / d { FatVolume.MulMono(q + 1, n / d, d); }
    if n / d < q { FatVolume.MulMono(n / d + 1, q, d); }
  }

  /** The CRC of "123456789", as it is printed. */
  lemma CheckValuePrinted()
    ensures FormatCrc32(0xcbf4_3926) == "CBF43926"
  {
    hide FormatCrc32;
    EightDigits(0xcbf4_3926);
    SomeHexChars();
    Spelled(HEX_CHARS, FormatCrc32(0xcbf4_3926));
  }

  lemma Spelled(h: string, d: string)
    requires |h| == 16 && h[12] == 'C' && h[11] == 'B' && h[15] == 'F' && h[4] == '4' && h[3] == '3' && h[9] == '9'
    requires h[2] == '2' && h[6] == '6' && d == [h[12], h[11], h[15], h[4], h[3], h[9], h[2], h[6]]
    ensures d == "CBF43926"
  {
  }

  lemma SomeHexChars()
    ensures var h := HEX_CHARS;
      |h| == 16 && h[12] == 'C' && h[11] == 'B' && h[15] == 'F' && h[4] == '4' && h[3] == '3' && h[9] == '9'
      && h[2] == '2' && h[6] == '6'
  {
  }

  lemma EightDigits(n: nat)
    ensures var d, h := FormatCrc32(n), HEX_CHARS;
      && |d| == 8 && |h| == 16
      && d == [h[n / 0x1000_0000 % 16], h[n / 0x100_0000 % 16], h[n / 0x10_0000 % 16], h[n / 0x1_0000 % 16],
               h[n / 0x1000 % 16], h[n / 0x100 % 16], h[n / 0x10 % 16], h[n % 16]]
  {
    hide HexDigits;
    HexDigitsAre(n, 8, 0);
    HexDigitsAre(n, 8, 1);
    HexDigitsAre(n, 8, 2);
    HexDigitsAre(n, 8, 3);
    HexDigitsAre(n, 8, 4);
    HexDigitsAre(n, 8, 5);
    HexDigitsAre(n, 8, 6);
    HexDigitsAre(n, 8, 7);
    SixteenPowers();
  }

  lemma SixteenPowers()
    ensures Power(16, 0) == 1 && Power(16, 1) == 0x10 && Power(16, 2) == 0x100 && Power(16, 3) == 0x1000
    ensures Power(16, 4) == 0x1_0000 && Power(16, 5) == 0x10_0000 && Power(16, 6) == 0x100_0000
    ensures Power(16, 7) == 0x1000_0000
  {
    assert Power(16, 4) == 16 * Power(16, 3);
  }

  // ---------------------------------------------------------------- refusals

  /** How the refusals other than an error line begin. */
  predicate RefusalHead(head: string) {
    head == "sd unavailable:" || head == "sd refused:" || head == "command refused:" || head == "unknown \U{2014}"
  }

  /** A reply of one refusal line, alone or before the status end line, is reported as that refusal. */
  lemma RefusalIsRefused(sector: nat, head: string, tail: string)
    requires RefusalHead(head) && NoBreak(head + tail) && Tight(head + tail) && |head + tail| <= 1000
    ensures Verdict(head + tail + "\r\n", sector) == Refused(sector, head + tail)
    ensures Verdict(head + tail + "\r\n" + "sd_end: 1\r\n", sector) == Refused(sector, head + tail)
  {
    var line := head + tail;
    RefusalLine(head, tail);
    hide IsRefusal, IsErrorLine, RefusalHead, Tight, NoBreak, Split, Trim;
    OneLine(line);
    TwoLines(line);
    assert LinesVerdict([line], sector) == Refused(sector, line) by { FirstRefusal([line], sector); }
    assert LinesVerdict([line, "sd_end: 1"], sector) == Refused(sector, line) by {
      StatusEndIsNoError();
      FirstRefusal([line, "sd_end: 1"], sector);
    }
  }

  lemma RefusalLine(head: string, tail: string)
    requires RefusalHead(head)
    ensures IsRefusal(head + tail) && !IsErrorLine(head + tail)
  {
    var line := head + tail;
    assert line[..|head|] == head;
    if head == "unknown \U{2014}" { assert line[..7] == "unknown" && line[7] == ' '; }
    assert line[0] == head[0] && line[2] == head[2];
  }

  lemma FirstRefusal(lines: seq<string>, sector: nat)
    requires lines != [] && IsRefusal(lines[0]) && forall i :: 0 <= i < |lines| ==> !IsErrorLine(lines[i])
    ensures LinesVerdict(lines, sector) == Refused(sector, lines[0])
  {
    hide IsRefusal, IsErrorLine;
    NoneFound(lines, IsErrorLine);
  }

  lemma StatusEndIsNoError()
    ensures !IsErrorLine("sd_end: 1")
  {
  }

  /** The lines of one line, and of that line before the status end line. */
  lemma OneLine(line: string)
    requires NoBreak(line) && Tight(line)
    ensures SplitLines(line + "\r\n") == [line]
  {
    hide Split, Trim, NoBreak;
    assert line + "\r\n" == line + "\r\n" + "";
    SplitLine(line, "");
    SplitNothing();
    TrimTight(line);
    TrimNothing();
    TightNotEmpty(line);
    assert [line] + [""] == [line, ""];
    assert TrimAll([line, ""]) == [line, ""];
    NonEmptyAll([line]);
  }

  lemma TwoLines(line: string)
    requires NoBreak(line) && Tight(line)
    ensures SplitLines(line + "\r\n" + "sd_end: 1\r\n") == [line, "sd_end: 1"]
  {
    StatusEnd();
    hide SplitLines, NoBreak, Tight;
    assert "sd_end: 1" + "\r\n" == "sd_end: 1\r\n";
    TwoTightLines(line, "sd_end: 1");
  }

  lemma StatusEnd()
    ensures NoBreak("sd_end: 1") && Tight("sd_end: 1")
  {
  }

  /** A line that goes on after `unknown` is a refusal exactly when the word ends there. */
  lemma UnknownWordEnds(c: char, tail: string)
    ensures var code := c as int;
      IsRefusal("unknown" + [c] + tail) <==>
        !(48 <= code <= 57 || 65 <= code <= 90 || code == 95 || 97 <= code <= 122)
  {
    var line := "unknown" + [c] + tail;
    assert line[..7] == "unknown";
    assert line[7] == c && line[0] == 'u';
  }

  /** The other refusals and the errors need their colon. */
  lemma ColonDecides(tail: string)
    ensures IsErrorLine("sd_data_error" + tail) <==> tail != "" && tail[0] == ':'
    ensures IsRefusal("sd unavailable" + tail) <==> tail != "" && tail[0] == ':'
    ensures IsRefusal("sd refused" + tail) <==> tail != "" && tail[0] == ':'
    ensures IsRefusal("command refused" + tail) <==> tail != "" && tail[0] == ':'
  {
    HeadDecides("sd_data_error", tail);
    HeadDecides("sd unavailable", tail);
    HeadDecides("sd refused", tail);
    HeadDecides("command refused", tail);
    assert ("sd unavailable" + tail)[3] == 'u' && ("sd refused" + tail)[3] == 'r';
    assert ("command refused" + tail)[0] == 'c';
  }

  lemma HeadDecides(head: string, tail: string)
    ensures StartsWith(head + tail, head + ":") <==> tail != "" && tail[0] == ':'
  {
    var line := head + tail;
    if StartsWith(line, head + ":") { assert line[|head|] == (head + ":")[|head|]; }
    if tail != "" && tail[0] == ':' { assert line[..|head| + 1] == head + ":"; }
  }

  /** An error counts wherever it stands, also after a refusal. */
  lemma ErrorWins(sector: nat, head: string, tail: string, error: string)
    requires RefusalHead(head) && NoBreak(head + tail) && Tight(head + tail) && |head + tail| <= 1000
    requires IsErrorLine(error) && NoBreak(error) && Tight(error) && |error| <= 1000
    ensures Verdict(head + tail + "\r\n" + (error + "\r\n"), sector) == Error(sector, error)
  {
    var line := head + tail;
    RefusalLine(head, tail);
    hide IsRefusal, IsErrorLine, RefusalHead, Tight, NoBreak, Split, Trim;
    TwoTightLines(line, error);
    ErrorSecond(line, error, sector);
  }

  /** The parser's limit is 16384 characters: an error reply is reported up to that length and malformed beyond. */
  lemma LimitDecides(sector: nat, line: string)
    requires IsErrorLine(line) && NoBreak(line) && Tight(line)
    ensures Verdict(ErrorReply(line), sector)
         == if |ErrorReply(line)| <= 16384 then Error(sector, line) else Malformed(sector)
  {
    hide IsErrorLine, NoBreak, Tight, LinesVerdict;
    if |ErrorReply(line)| <= 16384 { ErrorReplyIsError(sector, line); }
  }

  lemma ErrorSecond(line: string, error: string, sector: nat)
    requires IsErrorLine(error) && !IsErrorLine(line)
    ensures LinesVerdict([line, error], sector) == Error(sector, error)
  {
    hide IsErrorLine, HasFrame;
    assert [line, error][1..] == [error];
    assert FirstLine([line, error], IsErrorLine) == FirstLine([error], IsErrorLine) == Some(error);
  }

  lemma TwoTightLines(a: string, b: string)
    requires NoBreak(a) && Tight(a) && NoBreak(b) && Tight(b)
    ensures SplitLines(a + "\r\n" + (b + "\r\n")) == [a, b]
  {
    hide Split, Trim, NoBreak;
    SplitLine(a, b + "\r\n");
    assert b + "\r\n" == b + "\r\n" + "";
    SplitLine(b, "");
    SplitNothing();
    TrimTight(a);
    TrimTight(b);
    TrimNothing();
    TightNotEmpty(a);
    TightNotEmpty(b);
    assert [a] + ([b] + [""]) == [a, b, ""];
    assert TrimAll([a, b, ""]) == [a, b, ""];
    NonEmptyAll([a, b]);
    assert [a, b] + [""] == [a, b, ""];
  }

  // ---------------------------------------------------------------- replies of one line

  /** Whatever report was asked for, the answer to an unknown command ends the reply. */
  lemma UnknownIsFramed(marker: string, line: string)
    requires line == "unknown" || line == "unknown command" || line == "unknown \U{2014} try help"
    ensures Framed(marker, line + "\r\n")
  {
    UnknownTight(line);
    TrimTight(line);
    hide Tight, Trim;
    OneLineFramed(marker, line);
  }

  lemma UnknownTight(line: string)
    requires line == "unknown" || line == "unknown command" || line == "unknown \U{2014} try help"
    ensures Tight(line) && NoBreak(line)
  {
    assert line[0] == 'u';
    if line == "unknown" {
      assert line[6] == 'n';
    } else if line == "unknown command" {
      assert line[14] == 'd';
    } else {
      assert line[17] == 'p';
    }
  }

  lemma OneLineFramed(marker: string, line: string)
    requires NoBreak(line) && StopsReply(marker, line)
    ensures Framed(marker, line + "\r\n")
  {
    hide Split, StopsReply;
    assert line + "\r\n" == line + "\r\n" + "";
    SplitLine(line, "");
    SplitNothing();
    assert [line] + [""] == [line, ""];
    assert Complete(line + "\r\n") == [line] && Complete(line + "\r\n")[0] == line;
    assert Rest(line + "\r\n") == "";
  }

  /** A refused mode or control source ends the `modes` reply, and no other. */
  lemma ModeRefusalStops(marker: string, tail: string)
    requires marker != "mode_range refused:" + tail && marker != "control_source refused:" + tail
    ensures StopsReply(marker, "mode_range refused:" + tail) <==> marker == "modes_end: 1"
    ensures StopsReply(marker, "control_source refused:" + tail) <==> marker == "modes_end: 1"
  {
    NotUnknown("mode_range refused:" + tail);
    NotUnknown("control_source refused:" + tail);
    assert ("mode_range refused:" + tail)[..19] == "mode_range refused:";
    assert ("control_source refused:" + tail)[..23] == "control_source refused:";
    hide IsUnknown;
  }

  lemma NotUnknown(line: string)
    requires line != "" && !IsSpace(line[0]) && line[0] != 'u'
    ensures !IsUnknown(line)
  {
    hide IsSpace;
    assert TrimStart(line) == line;
    TrimEndKeeps(line);
  }

  lemma {:induction false} TrimEndKeeps(s: string)
    requires s != "" && !IsSpace(s[0])
    ensures TrimEnd(s) != "" && TrimEnd(s)[0] == s[0]
  {
    hide IsSpace;
    if IsSpace(s[|s| - 1]) { TrimEndKeeps(s[..|s| - 1]); }
  }

  /** The characters that trimming removes, by code. */
  lemma BlanksByCode(c: char)
    ensures var code := c as int;
      IsSpace(c) <==>
        || 9 <= code <= 13 || code in {32, 160, 5760, 8239, 8287, 12288, 65279}
        || 8192 <= code <= 8202 || 8232 <= code <= 8233
  {
  }

  /** Blanks around a line are trimmed, and nothing else is. */
  lemma {:induction false} TrimInvertsPadding(before: string, line: string, after: string)
    requires Tight(line) && (forall i :: 0 <= i < |before| ==> before[i] in " \t\r\n")
    requires forall i :: 0 <= i < |after| ==> after[i] in " \t\r\n"
    ensures Trim(before + line + after) == line
    decreases |before| + |after|
  {
    Blanks();
    hide IsSpace;
    if before != "" {
      assert (before + line + after)[1..] == before[1..] + line + after;
      TrimInvertsPadding(before[1..], line, after);
    } else if after != "" {
      assert "" + line + after == line + after;
      TrimEndPads(line, after);
    } else {
      assert "" + line + "" == line;
      TrimTight(line);
    }
  }

  lemma Blanks()
    ensures forall c :: c in " \t\r\n" ==> IsSpace(c)
  {
  }

  lemma {:induction false} TrimEndPads(line: string, after: string)
    requires Tight(line) && forall i :: 0 <= i < |after| ==> after[i] in " \t\r\n"
    ensures TrimEnd(line + after) == line && TrimStart(line + after) == line + after
  {
    Blanks();
    hide IsSpace;
    if after == "" {
      assert line + "" == line;
    } else {
      assert (line + after)[..|line + after| - 1] == line + after[..|after| - 1];
      TrimEndPads(line, after[..|after| - 1]);
    }
  }

  /** An error line and the end line are framed for an `sd read`: only the end line stops it. */
  lemma ErrorIsFramed(line: string)
    requires IsErrorLine(line) && NoBreak(line) && Tight(line)
    ensures Framed(END_LINE, ErrorReply(line))
  {
    ErrorGoesOn(line);
    ErrorReplyPieces(line);
    hide Split, IsErrorLine, Tight, NoBreak, StopsReply, ErrorReply;
    SplitLine(line, END_LINE + "\r\n" + "");
    assert Split(END_LINE + "\r\n" + "") == [END_LINE] + Split("") by {
      EndLineHasNoBreak();
      SplitLine(END_LINE, "");
    }
    SplitNothing();
    assert Split(ErrorReply(line)) == [line, END_LINE, ""];
    assert Complete(ErrorReply(line)) == [line, END_LINE];
    EndLineStops();
    assert StopsReply(END_LINE, Complete(ErrorReply(line))[1]);
  }

  lemma ErrorGoesOn(line: string)
    requires IsErrorLine(line) && Tight(line)
    ensures !StopsReply(END_LINE, line)
  {
    assert line[0] == 's' && line[9] == 'r' && END_LINE[9] == 'n';
    NotUnknown(line);
    hide IsUnknown;
  }
}
