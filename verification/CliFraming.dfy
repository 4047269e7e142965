/** cli-framing.ts: line splitting and the response collector. */
module CliFraming {
  // ---------------------------------------------------------------- lines

  predicate IsBreak(c: char) { c == '\r' || c == '\n' }

  predicate NoBreak(t: string) {
    forall i :: 0 <= i < |t| ==> !IsBreak(t[i])
  }

  /** `text.split(/\r\n|\n|\r/)`: the complete lines, then what follows the last line end. */
  function Split(t: string): (p: seq<string>)
    ensures |p| > 0
    decreases |t|
  {
    if t == "" then [""]
    else if t[0] == '\r' && |t| > 1 && t[1] == '\n' then [""] + Split(t[2..])
    else if IsBreak(t[0]) then [""] + Split(t[1..])
    else
      var p := Split(t[1..]);
      [[t[0]] + p[0]] + p[1..]
  }

  function Complete(t: string): seq<string> { Split(t)[..|Split(t)| - 1] }

  function Rest(t: string): string { Split(t)[|Split(t)| - 1] }

  lemma {:induction false} SplitNoBreak(t: string)
    requires NoBreak(t)
    ensures Split(t) == [t]
    decreases |t|
  {
    if t != "" {
      assert !IsBreak(t[0]);
      SplitNoBreak(t[1..]);
      assert t == [t[0]] + t[1..];
    }
  }

  /** The first line ends at the first break; a CRLF pair is one break. */
  lemma {:induction false} SplitFirst(t: string, i: nat)
    requires i < |t| && NoBreak(t[..i]) && IsBreak(t[i])
    ensures var next := if t[i] == '\r' && i + 1 < |t| && t[i + 1] == '\n' then i + 2 else i + 1;
            next <= |t| && Split(t) == [t[..i]] + Split(t[next..])
    decreases |t|
  {
    if i > 0 {
      assert t[0] == t[..i][0] && t[1..][..i - 1] == t[..i][1..];
      SplitFirst(t[1..], i - 1);
      assert t[..i] == [t[0]] + t[1..][..i - 1];
      var next := if t[i] == '\r' && i + 1 < |t| && t[i + 1] == '\n' then i + 2 else i + 1;
      assert t[1..][next - 1..] == t[next..];
    }
  }

  /** No piece of a split holds a break. */
  lemma {:induction false} PiecesHaveNoBreak(t: string, k: nat)
    requires k < |Split(t)|
    ensures NoBreak(Split(t)[k])
    decreases |t|
  {
    if t == "" {
    } else if t[0] == '\r' && |t| > 1 && t[1] == '\n' {
      if k > 0 { PiecesHaveNoBreak(t[2..], k - 1); }
    } else if IsBreak(t[0]) {
      if k > 0 { PiecesHaveNoBreak(t[1..], k - 1); }
    } else {
      PiecesHaveNoBreak(t[1..], k);
    }
  }

  /** A cut between CR and LF. */
  predicate CutsPair(a: string, b: string) {
    a != "" && a[|a| - 1] == '\r' && b != "" && b[0] == '\n'
  }

  /** Splitting a text that arrives in two parts: all but the last piece of the first part stand, and
    * the last piece grows; only a cut between CR and LF swallows the LF. */
  ghost predicate SplitsAs(a: string, b: string) {
    if CutsPair(a, b) then Rest(a) == "" && Split(a + b) == Complete(a) + Split(b[1..])
    else Split(a + b) == Complete(a) + Split(Rest(a) + b)
  }

  lemma {:induction false} SplitConcat(a: string, b: string)
    ensures SplitsAs(a, b)
    decreases |a|
  {
    hide SplitsAs;
    if a == "" || (|a| == 1 && !IsBreak(a[0])) {
      ShortHead(a, b);
    } else if |a| == 1 {
      LoneBreak(a, b);
    } else if a[0] == '\r' && a[1] == '\n' {
      SplitConcat(a[2..], b);
      PairHead(a, b);
    } else if IsBreak(a[0]) {
      SplitConcat(a[1..], b);
      BreakHead(a, b);
    } else {
      SplitConcat(a[1..], b);
      PlainHead(a, b);
    }
  }

  lemma ShortHead(a: string, b: string)
    requires a == "" || (|a| == 1 && !IsBreak(a[0]))
    ensures SplitsAs(a, b)
  {
    SplitNoBreak(a);
    hide Split;
    assert Rest(a) + b == a + b;
  }

  lemma LoneBreak(a: string, b: string)
    requires |a| == 1 && IsBreak(a[0])
    ensures SplitsAs(a, b)
  {
    assert Split(a) == [""] + Split(a[1..]) == ["", ""];
    assert (a + b)[1..] == b && Rest(a) + b == b;
    if CutsPair(a, b) { assert (a + b)[2..] == b[1..]; }
  }

  lemma PairHead(a: string, b: string)
    requires |a| > 1 && a[0] == '\r' && a[1] == '\n' && SplitsAs(a[2..], b)
    ensures SplitsAs(a, b)
  {
    hide SplitsAs;
    SplitAfterBreak(a, 2);
    assert (a + b)[2..] == a[2..] + b;
    SplitAfterBreak(a + b, 2);
    EmptyLineFirst(a, b, a[2..]);
  }

  lemma BreakHead(a: string, b: string)
    requires |a| > 1 && IsBreak(a[0]) && !(a[0] == '\r' && a[1] == '\n') && SplitsAs(a[1..], b)
    ensures SplitsAs(a, b)
  {
    hide SplitsAs;
    SplitAfterBreak(a, 1);
    assert (a + b)[1..] == a[1..] + b;
    SplitAfterBreak(a + b, 1);
    EmptyLineFirst(a, b, a[1..]);
  }

  lemma SplitAfterBreak(t: string, n: nat)
    requires |t| > 1 && IsBreak(t[0]) && n == if t[0] == '\r' && t[1] == '\n' then 2 else 1
    ensures Split(t) == [""] + Split(t[n..])
  {
  }

  lemma EmptyLineFirst(a: string, b: string, tail: string)
    requires Split(a) == [""] + Split(tail) && Split(a + b) == [""] + Split(tail + b)
    requires SplitsAs(tail, b) && CutsPair(a, b) == CutsPair(tail, b)
    ensures SplitsAs(a, b)
  {
    hide Split, CutsPair;
    if CutsPair(a, b) { CutHasLineFeed(a, b); }
  }

  lemma CutHasLineFeed(a: string, b: string)
    requires CutsPair(a, b)
    ensures b != ""
  {
  }

  lemma PlainHead(a: string, b: string)
    requires |a| > 1 && !IsBreak(a[0]) && SplitsAs(a[1..], b)
    ensures SplitsAs(a, b)
  {
    hide SplitsAs, PutFirst, IsBreak;
    assert (a + b)[1..] == a[1..] + b;
    SplitAfterPlain(a);
    SplitAfterPlain(a + b);
    if |Split(a[1..])| == 1 { PlainOneLine(a, b); } else { PlainManyLines(a, b); }
  }

  lemma PlainOneLine(a: string, b: string)
    requires |a| > 1 && !IsBreak(a[0]) && |Split(a[1..])| == 1 && SplitsAs(a[1..], b)
    requires PutFirst(a[0], Split(a[1..]), Split(a)) && PutFirst(a[0], Split(a[1..] + b), Split(a + b))
    ensures SplitsAs(a, b)
  {
    if CutsPair(a, b) { NoLineEnd(a[1..]); }
    PlainAlone(a, b);
    hide Split;
  }

  lemma PlainManyLines(a: string, b: string)
    requires |a| > 1 && |Split(a[1..])| > 1 && SplitsAs(a[1..], b)
    requires PutFirst(a[0], Split(a[1..]), Split(a)) && PutFirst(a[0], Split(a[1..] + b), Split(a + b))
    ensures SplitsAs(a, b)
  {
    hide Split;
    var tail := if CutsPair(a, b) then Split(b[1..]) else Split(Rest(a[1..]) + b);
    FirstPieceGrows(a[0], Split(a[1..]), Split(a), Split(a[1..] + b), Split(a + b), tail);
  }

  lemma SplitAfterPlain(t: string)
    requires t != "" && !IsBreak(t[0])
    ensures PutFirst(t[0], Split(t[1..]), Split(t))
  {
  }

  /** `q` is `p` with `c` put in front of its first piece. */
  predicate PutFirst(c: char, p: seq<string>, q: seq<string>) {
    p != [] && q == [[c] + p[0]] + p[1..]
  }

  lemma FirstPieceGrows(c: char, p: seq<string>, p': seq<string>, q: seq<string>, q': seq<string>, tail: seq<string>)
    requires PutFirst(c, p, p') && PutFirst(c, q, q') && |p| > 1 && q == p[..|p| - 1] + tail
    ensures p'[|p'| - 1] == p[|p| - 1] && q' == p'[..|p'| - 1] + tail
  {
    assert q[1..] == p[1..|p| - 1] + tail && p'[..|p'| - 1] == [[c] + p[0]] + p[1..|p| - 1];
  }

  lemma PlainAlone(a: string, b: string)
    requires |a| > 1 && !IsBreak(a[0]) && |Split(a[1..])| == 1
    ensures var q := Split(Rest(a[1..]) + b); Split(Rest(a) + b) == [[a[0]] + q[0]] + q[1..]
  {
    assert Rest(a) + b == [a[0]] + (Rest(a[1..]) + b) && (Rest(a) + b)[1..] == Rest(a[1..]) + b;
  }

  /** A text that ends with a break has at least one complete line. */
  lemma {:induction false} NoLineEnd(t: string)
    requires t != "" && IsBreak(t[|t| - 1])
    ensures |Split(t)| > 1
    decreases |t|
  {
    if |t| > 1 && !IsBreak(t[0]) { NoLineEnd(t[1..]); }
  }

  lemma SplitEnds(t: string, lines: seq<string>, rest: string)
    requires lines + [rest] == Split(t)
    ensures lines == Complete(t) && rest == Rest(t)
  {
  }

  // ---------------------------------------------------------------- the line buffer

  class LineBuffer {
    var buf: string

    constructor ()
      ensures buf == ""
    {
      buf := "";
    }

    /** Emits the complete lines of what is buffered and keeps the rest. */
    method Push(chunk: string) returns (lines: seq<string>)
      modifies this
      ensures lines == Complete(old(buf) + chunk) && buf == Rest(old(buf) + chunk)
      ensures NoBreak(buf)
    {
      hide Split, Complete, Rest;
      ghost var whole := buf + chunk;
      buf := buf + chunk;
      lines := [];
      var i := 0;
      while i < |buf|
        invariant 0 <= i <= |buf| && NoBreak(buf[..i])
        invariant lines + Split(buf) == Split(whole)
        decreases |buf|, |buf| - i
      {
        var c := buf[i];
        if c == '\r' {
          SplitFirst(buf, i);
          lines := lines + [buf[..i]];
          if i + 1 < |buf| && buf[i + 1] == '\n' {
            buf := buf[i + 2..];
          } else {
            buf := buf[i + 1..];
          }
          i := 0;
        } else if c == '\n' {
          SplitFirst(buf, i);
          lines := lines + [buf[..i]];
          buf := buf[i + 1..];
          i := 0;
        } else {
          i := i + 1;
        }
      }
      assert buf[..i] == buf;
      SplitNoBreak(buf);
      SplitEnds(whole, lines, buf);
    }
  }

  // ---------------------------------------------------------------- lines that arrive in chunks

  function Concat(chunks: seq<string>): string {
    if chunks == [] then "" else Concat(chunks[..|chunks| - 1]) + chunks[|chunks| - 1]
  }

  /** All lines a fresh `LineBuffer` emits for a sequence of pushes, and what it is left with. */
  function PushAll(chunks: seq<string>): (seq<string>, string) {
    if chunks == [] then ([], "")
    else
      var (lines, buf) := PushAll(chunks[..|chunks| - 1]);
      var text := buf + chunks[|chunks| - 1];
      (lines + Complete(text), Rest(text))
  }

  /** How many chunk boundaries fall between a CR and its LF. */
  function CutPairs(chunks: seq<string>): nat {
    if chunks == [] then 0
    else
      var front := chunks[..|chunks| - 1];
      CutPairs(front) + if CutsPair(Concat(front), chunks[|chunks| - 1]) then 1 else 0
  }

  function NonEmpty(lines: seq<string>): seq<string> {
    if lines == [] then []
    else NonEmpty(lines[..|lines| - 1]) + if lines[|lines| - 1] != "" then [lines[|lines| - 1]] else []
  }

  lemma {:induction false} NonEmptyConcat(a: seq<string>, b: seq<string>)
    ensures NonEmpty(a + b) == NonEmpty(a) + NonEmpty(b)
    decreases |b|
  {
    if b == [] {
      assert a + b == a;
    } else {
      assert (a + b)[..|a + b| - 1] == a + b[..|b| - 1];
      NonEmptyConcat(a, b[..|b| - 1]);
    }
  }

  lemma SplitParts(t: string)
    ensures Split(t) == Complete(t) + [Rest(t)]
  {
  }

  /** Splitting `Rest(a) + b` instead of `a + b`: the same lines, but for one empty line more when
    * the cut falls between CR and LF. */
  lemma ResumeSplit(a: string, b: string)
    ensures Rest(a + b) == Rest(Rest(a) + b)
    ensures !CutsPair(a, b) ==> Complete(a + b) == Complete(a) + Complete(Rest(a) + b)
    ensures CutsPair(a, b) ==>
              && Complete(Rest(a) + b) == [""] + Complete(b[1..])
              && Complete(a + b) == Complete(a) + Complete(b[1..])
  {
    SplitConcat(a, b);
    if CutsPair(a, b) {
      assert Rest(a) + b == b;
      assert Split(b) == [""] + Split(b[1..]);
    }
  }

  /** However the text is cut into chunks, the non-empty lines and the remainder are those of one
    * push of the whole text. Every cut between CR and LF adds one empty line, so the lines are
    * exactly the same if and only if there is no such cut. */
  lemma {:induction false} ChunksSplitAlike(chunks: seq<string>)
    ensures PushAll(chunks).1 == Rest(Concat(chunks))
    ensures NonEmpty(PushAll(chunks).0) == NonEmpty(Complete(Concat(chunks)))
    ensures |PushAll(chunks).0| == |Complete(Concat(chunks))| + CutPairs(chunks)
    ensures PushAll(chunks).0 == Complete(Concat(chunks)) <==> CutPairs(chunks) == 0
  {
    hide Split, Complete, Rest;
    if chunks == [] {
      EmptyText();
    } else {
      var front, c := chunks[..|chunks| - 1], chunks[|chunks| - 1];
      ChunksSplitAlike(front);
      var a := Concat(front);
      ResumeSplit(a, c);
      NonEmptyConcat(PushAll(front).0, Complete(Rest(a) + c));
      if CutsPair(a, c) {
        NonEmptyConcat(Complete(a), Complete(c[1..]));
        NonEmptyConcat([""], Complete(c[1..]));
        assert NonEmpty([""]) == [] by { assert [""][..0] == []; }
      } else {
        NonEmptyConcat(Complete(a), Complete(Rest(a) + c));
      }
    }
  }

  lemma PushStep(front: seq<string>, c: string)
    ensures PushAll(front + [c]).0 == PushAll(front).0 + Complete(PushAll(front).1 + c)
    ensures PushAll(front + [c]).1 == Rest(PushAll(front).1 + c)
    ensures Concat(front + [c]) == Concat(front) + c
    ensures CutPairs(front + [c]) == CutPairs(front) + if CutsPair(Concat(front), c) then 1 else 0
  {
    hide Split;
    assert (front + [c])[..|front|] == front;
  }

  /** A CR and its LF in different chunks: one push gives one line, two pushes give two. */
  lemma CutPairAddsLine()
    ensures Complete("\r\n") == [""] && PushAll(["\r", "\n"]).0 == ["", ""] && CutPairs(["\r", "\n"]) == 1
  {
    LoneEnds();
    PushStep([], "\r");
    PushStep(["\r"], "\n");
    assert [] + ["\r"] == ["\r"] && ["\r"] + ["\n"] == ["\r", "\n"];
    hide Split;
    assert "" + "\r" == "\r" && "" + "\n" == "\n";
  }

  lemma LoneEnds()
    ensures Split("\r\n") == ["", ""] && Split("\r") == ["", ""] && Split("\n") == ["", ""]
  {
    assert Split("") == [""] && "\r\n"[2..] == "" && "\r"[1..] == "" && "\n"[1..] == "";
  }

  lemma EmptyText()
    ensures Complete("") == [] && Rest("") == ""
  {
  }

  // ---------------------------------------------------------------- joining and splitting

  /** The lines with their ends, in order. */
  function Joined(lines: seq<string>, ends: seq<string>): string
    requires |lines| == |ends|
  {
    if lines == [] then "" else lines[0] + ends[0] + Joined(lines[1..], ends[1..])
  }

  /** Lines without CR or LF, each ended by CRLF, LF or CR; a lone CR is not followed by an LF. */
  predicate WellEnded(lines: seq<string>, ends: seq<string>, rest: string)
    requires |lines| == |ends|
  {
    if lines == [] then '\r' !in rest && '\n' !in rest
    else
      var after := Joined(lines[1..], ends[1..]) + rest;
      && '\r' !in lines[0] && '\n' !in lines[0]
      && (ends[0] == "\r\n" || ends[0] == "\n" || (ends[0] == "\r" && (after == "" || after[0] != '\n')))
      && WellEnded(lines[1..], ends[1..], rest)
  }

  /** Splitting inverts joining, for every mixture of the three line ends. */
  lemma {:induction false} SplitInvertsJoin(lines: seq<string>, ends: seq<string>, rest: string)
    requires |lines| == |ends| && WellEnded(lines, ends, rest)
    ensures Complete(Joined(lines, ends) + rest) == lines && Rest(Joined(lines, ends) + rest) == rest
  {
    if lines == [] {
      assert "" + rest == rest;
      SplitNoBreak(rest);
    } else {
      var after := Joined(lines[1..], ends[1..]) + rest;
      SplitInvertsJoin(lines[1..], ends[1..], rest);
      assert Joined(lines, ends) + rest == lines[0] + ends[0] + after;
      FirstLineSplits(lines[0], ends[0], after);
      hide Joined, WellEnded, Split;
      assert lines == [lines[0]] + lines[1..];
    }
  }

  lemma FirstLineSplits(line: string, end: string, after: string)
    requires '\r' !in line && '\n' !in line
    requires end == "\r\n" || end == "\n" || (end == "\r" && (after == "" || after[0] != '\n'))
    ensures Split(line + end + after) == [line] + Split(after)
    ensures Complete(line + end + after) == [line] + Complete(after) && Rest(line + end + after) == Rest(after)
  {
    var t := line + end + after;
    assert t[..|line|] == line && t[|line|] == end[0] && t[|line| + |end|..] == after;
    SplitFirst(t, |line|);
    hide Split;
  }
}
