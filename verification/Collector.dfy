/** cli-framing.ts: `ResponseCollector`, which gathers one reply and settles once. */
module Collector {
  import opened Bytes
  import opened CliFraming

  datatype Reason = Overflow | TerminatorMissing | EmptyTimeout | Cancelled(why: string)

  datatype Settlement = Resolved(text: string) | Rejected(reason: Reason)

  // ---------------------------------------------------------------- lines that end a reply

  /** White space and line terminators as `String.prototype.trim` removes them. */
  predicate IsSpace(c: char) {
    c in "\t\n\U{000B}\U{000C}\r \U{00A0}\U{1680}\U{2028}\U{2029}\U{202F}\U{205F}\U{3000}\U{FEFF}"
    || '\U{2000}' <= c <= '\U{200A}'
  }

  function TrimStart(s: string): string {
    if s != "" && IsSpace(s[0]) then TrimStart(s[1..]) else s
  }

  function TrimEnd(s: string): string {
    if s != "" && IsSpace(s[|s| - 1]) then TrimEnd(s[..|s| - 1]) else s
  }

  function Trim(s: string): string { TrimEnd(TrimStart(s)) }

  /** `/^unknown(?: — try help| command)?$/` on the trimmed line. */
  predicate IsUnknown(line: string) {
    Trim(line) == "unknown" || Trim(line) == "unknown \U{2014} try help" || Trim(line) == "unknown command"
  }

  predicate StartsWith(s: string, prefix: string) {
    prefix <= s
  }

  /** A complete line that ends the reply framed by `marker`. */
  predicate StopsReply(marker: string, line: string) {
    || line == marker
    || (marker == "modes_end: 1"
        && (StartsWith(line, "mode_range refused:") || StartsWith(line, "control_source refused:")))
    || IsUnknown(line)
  }

  predicate HasStop(marker: string, lines: seq<string>) {
    exists i :: 0 <= i < |lines| && StopsReply(marker, lines[i])
  }

  // ---------------------------------------------------------------- the collector as a value

  /** What a collector holds: the text so far, and how it settled. */
  datatype View = View(text: string, outcome: Option<Settlement>)

  function AfterPush(marker: Option<string>, maxChars: nat, v: View, chunk: string): View {
    if v.outcome.Some? then v
    else if |v.text| + |chunk| > maxChars then v.(outcome := Some(Rejected(Overflow)))
    else
      var text := v.text + chunk;
      View(text, if marker.Some? && HasStop(marker.value, Complete(text)) then Some(Resolved(text)) else None)
  }

  function AfterTimeout(marker: Option<string>, v: View): View {
    if v.outcome.Some? then v
    else if marker.Some? then v.(outcome := Some(Rejected(TerminatorMissing)))
    else if v.text == "" then v.(outcome := Some(Rejected(EmptyTimeout)))
    else v.(outcome := Some(Resolved(v.text)))
  }

  // ---------------------------------------------------------------- the collector as an object

  class ResponseCollector {
    const endMarker: Option<string>
    const maxChars: nat
    var chunks: seq<string>
    var settled: bool
    var receivedChars: nat
    var idleTimer: bool
    var hardTimer: bool
    /** Calls of `resolve` and `reject`, in order. */
    var calls: seq<Settlement>

    ghost function Now(): View
      reads this
    {
      View(Concat(chunks), if calls == [] then None else Some(calls[0]))
    }

    /** At most one settlement, and no timer outlives it. */
    ghost predicate Valid()
      reads this
    {
      && receivedChars == |Concat(chunks)| <= maxChars
      && |calls| == (if settled then 1 else 0)
      && (settled ==> !idleTimer && !hardTimer)
      && (!settled ==> hardTimer && (endMarker.Some? ==> !idleTimer))
    }

    constructor (endMarker: Option<string>, maxChars: nat)
      ensures Valid() && this.endMarker == endMarker && this.maxChars == maxChars && Now() == View("", None)
    {
      this.endMarker, this.maxChars := endMarker, maxChars;
      chunks, settled, receivedChars := [], false, 0;
      idleTimer, hardTimer, calls := false, true, [];
    }

    method Push(text: string)
      requires Valid()
      modifies this
      ensures Valid() && Now() == AfterPush(endMarker, maxChars, old(Now()), text)
      ensures old(calls) <= calls
    {
      if settled { return; }
      if |text| > maxChars - receivedChars {
        Cancel(Overflow);
        return;
      }
      receivedChars := receivedChars + |text|;
      chunks := chunks + [text];
      assert chunks[..|chunks| - 1] == old(chunks);
      idleTimer := false;
      if endMarker.Some? {
        if HasStop(endMarker.value, Complete(Concat(chunks))) { Finish(false); }
        return;
      }
      idleTimer := true;
    }

    method Finish(fromTimeout: bool)
      requires Valid()
      modifies this
      ensures Valid() && old(calls) <= calls
      ensures Now() == if fromTimeout then AfterTimeout(endMarker, old(Now()))
                       else if old(settled) then old(Now()) else old(Now()).(outcome := Some(Resolved(old(Now()).text)))
    {
      if settled { return; }
      settled := true;
      idleTimer, hardTimer := false, false;
      var text := Concat(chunks);
      if fromTimeout && (|text| == 0 || endMarker.Some?) {
        calls := calls + [Rejected(if endMarker.Some? then TerminatorMissing else EmptyTimeout)];
        return;
      }
      calls := calls + [Resolved(text)];
    }

    method Cancel(reason: Reason)
      requires Valid()
      modifies this
      ensures Valid() && old(calls) <= calls
      ensures Now() == if old(settled) then old(Now()) else old(Now()).(outcome := Some(Rejected(reason)))
    {
      if settled { return; }
      settled := true;
      idleTimer, hardTimer := false, false;
      calls := calls + [Rejected(reason)];
    }

    /** The `setTimeout` callbacks; a cleared timer does not fire. */
    method HardTimeout()
      requires Valid() && hardTimer
      modifies this
      ensures Valid() && Now() == AfterTimeout(endMarker, old(Now())) && old(calls) <= calls
    {
      Finish(true);
    }

    method IdleTimeout()
      requires Valid() && idleTimer
      modifies this
      ensures Valid() && endMarker.None? && old(calls) <= calls
      ensures Now() == old(Now()).(outcome := Some(Resolved(old(Now()).text)))
    {
      Finish(false);
    }
  }

  // ---------------------------------------------------------------- chunking

  /** The chunks of a reply, pushed one after the other into a fresh collector. */
  function AfterChunks(marker: string, maxChars: nat, chunks: seq<string>): View {
    if chunks == [] then View("", None)
    else AfterPush(Some(marker), maxChars, AfterChunks(marker, maxChars, chunks[..|chunks| - 1]), chunks[|chunks| - 1])
  }

  /** A reply that ends with the line end of its one stop line. */
  ghost predicate Framed(marker: string, reply: string) {
    var lines := Complete(reply);
    && lines != [] && Rest(reply) == ""
    && HasStop(marker, lines)
    && !HasStop(marker, lines[..|lines| - 1])
  }

  /** The lines of a beginning are a beginning of the lines. */
  lemma LinesGrow(a: string, b: string)
    ensures Complete(a) <= Complete(a + b)
  {
    ResumeSplit(a, b);
  }

  lemma {:induction false} ConcatPrefix(chunks: seq<string>, k: nat)
    requires k <= |chunks|
    ensures Concat(chunks[..k]) <= Concat(chunks)
  {
    if k < |chunks| {
      ConcatPrefix(chunks[..|chunks| - 1], k);
      assert chunks[..|chunks| - 1][..k] == chunks[..k];
    } else {
      assert chunks[..k] == chunks;
    }
  }

  /** A beginning of a framed reply stops the collector exactly when it holds all the lines; it is
    * then the reply itself, or the reply without the LF of its final CRLF. */
  lemma StopsAtEnd(marker: string, p: string, q: string)
    requires Framed(marker, p + q)
    ensures HasStop(marker, Complete(p)) <==> Complete(p) == Complete(p + q)
    ensures HasStop(marker, Complete(p)) ==> q == "" || (q == "\n" && p != "" && p[|p| - 1] == '\r')
  {
    hide Split, StopsReply;
    var all := Complete(p + q);
    LinesGrow(p, q);
    if |Complete(p)| < |all| {
      assert Complete(p) == all[..|all| - 1][..|Complete(p)|];
      assert !HasStop(marker, Complete(p)) by {
        assert forall i :: 0 <= i < |Complete(p)| ==> Complete(p)[i] == all[..|all| - 1][i];
      }
    } else {
      LastLineEnd(p, q);
    }
  }

  /** With no line and no remainder to come, at most the LF of a CRLF is missing. */
  lemma LastLineEnd(p: string, q: string)
    requires Complete(p) == Complete(p + q) && Rest(p + q) == ""
    ensures q == "" || (q == "\n" && p != "" && p[|p| - 1] == '\r')
  {
    SplitConcat(p, q);
    SplitParts(p + q);
    if CutsPair(p, q) {
      OneEmptyPiece(q[1..]);
    } else {
      OneEmptyPiece(Rest(p) + q);
    }
  }

  lemma OneEmptyPiece(t: string)
    ensures Split(t) == [""] ==> t == ""
  {
    assert t != "" && !IsBreak(t[0]) ==> Split(t)[0] != "";
  }

  /** For every way of cutting a framed reply into chunks, within the length cap and before any
    * timer, the collector settles, with the whole reply or the reply without its final LF. */
  lemma {:induction false} ChunkingSettles(marker: string, maxChars: nat, chunks: seq<string>, rest: string)
    requires Framed(marker, Concat(chunks) + rest) && |Concat(chunks) + rest| <= maxChars
    ensures var v := AfterChunks(marker, maxChars, chunks);
      if HasStop(marker, Complete(Concat(chunks)))
      then v.outcome.Some? && v.outcome.value.Resolved?
           && (v.outcome.value.text == Concat(chunks) + rest || v.outcome.value.text + "\n" == Concat(chunks) + rest)
           && Complete(v.outcome.value.text) == Complete(Concat(chunks) + rest)
      else v == View(Concat(chunks), None)
  {
    hide Complete, Rest, Framed, HasStop;
    if chunks == [] {
      NoStopInNothing(marker);
    } else {
      var front, c := chunks[..|chunks| - 1], chunks[|chunks| - 1];
      var whole := Concat(chunks) + rest;
      assert Concat(front) + (c + rest) == whole;
      ChunkingSettles(marker, maxChars, front, c + rest);
      StopsAtEnd(marker, Concat(front), c + rest);
      StopsAtEnd(marker, Concat(chunks), rest);
      if HasStop(marker, Complete(Concat(front))) {
        LinesBetween(Concat(front), c, rest);
      }
    }
  }

  lemma LinesBetween(p: string, c: string, rest: string)
    requires Complete(p) == Complete(p + (c + rest))
    ensures Complete(p + c) == Complete(p + c + rest)
  {
    assert p + (c + rest) == p + c + rest;
    LinesGrow(p, c);
    LinesGrow(p + c, rest);
  }

  lemma NoStopInNothing(marker: string)
    ensures !HasStop(marker, Complete("")) && Concat([]) == ""
  {
    EmptyText();
  }

  /** The whole reply, in any chunks. */
  lemma FramedReplySettles(marker: string, maxChars: nat, chunks: seq<string>)
    requires Framed(marker, Concat(chunks)) && |Concat(chunks)| <= maxChars
    ensures var v := AfterChunks(marker, maxChars, chunks);
      v.outcome.Some? && v.outcome.value.Resolved?
      && (v.outcome.value.text == Concat(chunks) || v.outcome.value.text + "\n" == Concat(chunks))
      && Split(v.outcome.value.text) == Split(Concat(chunks))
  {
    hide Split, HasStop;
    var reply := Concat(chunks);
    assert reply + "" == reply;
    ChunkingSettles(marker, maxChars, chunks, "");
    var t := AfterChunks(marker, maxChars, chunks).outcome.value.text;
    if t != reply { SameLinesWithoutLf(t, marker); }
  }

  /** Leaving out the LF of the final CRLF does not change the lines. */
  lemma SameLinesWithoutLf(t: string, marker: string)
    requires Framed(marker, t + "\n")
    ensures Complete(t) == Complete(t + "\n") ==> Split(t) == Split(t + "\n")
  {
    SplitConcat(t, "\n");
    assert "\n"[1..] == "";
    if !CutsPair(t, "\n") {
      assert Split(Rest(t) + "\n") != [""];
    }
  }
}
