/** When the bytes of an event log are accepted, and as which events. */
module LogContents {
  import opened Wrappers
  import opened EventLog

  // ---- Lines ---------------------------------------------------------------

  function Joined(lines: seq<Bytes>): Bytes {
    if lines == [] then [] else lines[0] + Joined(lines[1..])
  }

  /** Bytes 10 and 13 stand only at the end of a line, and together only in this order. */
  predicate OneLine(line: Bytes) {
    && line != []
    && forall i :: 0 <= i < |line| - 1 && line[i] in {10, 13} ==>
         i == |line| - 2 && line[i] == 13 && line[i + 1] == 10
  }

  /** A line ends where a break is complete, and the last one also where the bytes end. */
  predicate CutAtBreaks(lines: seq<Bytes>) {
    && (forall k :: 0 <= k < |lines| ==> OneLine(lines[k]))
    && (forall k :: 0 <= k < |lines| - 1 ==> EndsWhole(lines[k], lines[k + 1]))
  }

  predicate EndsWhole(line: Bytes, next: Bytes) {
    && line != [] && line[|line| - 1] in {10, 13}
    && !(line[|line| - 1] == 13 && next != [] && next[0] == 10)
  }

  lemma LongerLine(b: bv8, line: Bytes)
    requires OneLine(line) && b !in {10, 13}
    ensures OneLine([b] + line)
  {
  }

  lemma {:induction false} FirstLineIsCut(content: Bytes)
    requires content != []
    ensures var n := FirstLine(content);
            OneLine(content[..n]) && (n < |content| ==> EndsWhole(content[..n], content[n..]))
  {
    if !IsBreak(content[0]) && |content| > 1 {
      var rest := content[1..];
      FirstLineIsCut(rest);
      var n := FirstLine(rest);
      assert content[..n + 1] == [content[0]] + rest[..n] && content[n + 1..] == rest[n..];
      LongerLine(content[0], rest[..n]);
    }
  }

  /** The lines put together are the content, cut exactly behind every "\n", "\r" and "\r\n". */
  lemma {:induction false} LinesOfContent(content: Bytes)
    ensures Joined(SplitLines(content)) == content && CutAtBreaks(SplitLines(content))
    decreases |content|
  {
    if content != [] {
      var n := FirstLine(content);
      var rest := content[n..];
      FirstLineIsCut(content);
      LinesOfContent(rest);
      assert SplitLines(content)[1..] == SplitLines(rest);
      assert content == content[..n] + rest;
      if rest != [] {
        assert SplitLines(rest)[0][0] == rest[0];
      }
    }
  }

  lemma CutFirst(lines: seq<Bytes>)
    requires CutAtBreaks(lines) && lines != []
    ensures CutAtBreaks(lines[1..])
  {
    forall k | 0 <= k < |lines[1..]| - 1
      ensures EndsWhole(lines[1..][k], lines[1..][k + 1])
    {
      assert EndsWhole(lines[k + 1], lines[k + 2]);
    }
  }

  lemma FirstLineOf(line: Bytes, rest: Bytes)
    requires OneLine(line) && (rest != [] ==> EndsWhole(line, rest))
    ensures FirstLine(line + rest) == |line|
    decreases |line|
  {
    var content := line + rest;
    if |line| == 1 {
      if rest == [] {
        assert content[1..] == [];
      }
    } else if line[0] in {10, 13} {
      assert |line| == 2;
    } else {
      assert content[1..] == line[1..] + rest;
      FirstLineOf(line[1..], rest);
    }
  }

  /** There is only one such way to cut a content into lines. */
  lemma {:induction false} LinesAreDetermined(lines: seq<Bytes>)
    requires CutAtBreaks(lines)
    ensures SplitLines(Joined(lines)) == lines
  {
    if lines != [] {
      var line, rest := lines[0], Joined(lines[1..]);
      assert OneLine(line);
      if |lines| > 1 {
        assert EndsWhole(lines[0], lines[1]) && lines[1] != [];
        assert rest[0] == lines[1][0];
      }
      FirstLineOf(line, rest);
      assert Joined(lines)[..|line|] == line && Joined(lines)[|line|..] == rest;
      CutFirst(lines);
      LinesAreDetermined(lines[1..]);
    }
  }

  // ---- Events --------------------------------------------------------------

  /** Some byte that is neither a space nor one of the control characters 9 to 13. */
  predicate HasText(line: Bytes) {
    exists i :: 0 <= i < |line| && line[i] !in {9, 10, 11, 12, 13, 32}
  }

  lemma BlankIsWithoutText(line: Bytes)
    ensures Blank(line) <==> !HasText(line)
  {
    if !Blank(line) {
      var i :| 0 <= i < |line| && !IsSpace(line[i]);
      SpaceCodes(line[i]);
    }
    if HasText(line) {
      var i :| 0 <= i < |line| && line[i] !in {9, 10, 11, 12, 13, 32};
      SpaceCodes(line[i]);
    }
  }

  lemma SpaceCodes(b: bv8)
    ensures IsSpace(b) <==> b in {9, 10, 11, 12, 13, 32}
  {
  }

  /** Every event is what its line decodes to, and its number and run are the expected ones. */
  predicate Accepted(codec: Codec, lines: seq<Bytes>, events: seq<Event>, runId: string, next: nat) {
    |events| <= |lines|
    && forall i :: 0 <= i < |events| ==>
         && HasText(lines[i]) && codec.decode(lines[i]) == Some(events[i])
         && events[i].sequence == next + i && events[i].runId == runId
  }

  /** A last line that was cut off: undecodable, with some text, and without its terminator. */
  predicate CutOff(codec: Codec, line: Bytes) {
    HasText(line) && codec.decode(line) == None && line[|line| - 1] !in {10, 13}
  }

  lemma AcceptedFirst(codec: Codec, lines: seq<Bytes>, events: seq<Event>, runId: string, next: nat)
    requires lines != [] && events != []
    ensures Accepted(codec, lines, events, runId, next)
       <==> && HasText(lines[0]) && codec.decode(lines[0]) == Some(events[0])
            && events[0].sequence == next && events[0].runId == runId
            && Accepted(codec, lines[1..], events[1..], runId, next + 1)
  {
    var tailLines, tail := lines[1..], events[1..];
    if Accepted(codec, tailLines, tail, runId, next + 1) {
      forall i | 1 <= i < |events|
        ensures i < |lines| && HasText(lines[i]) && codec.decode(lines[i]) == Some(events[i])
        ensures events[i].sequence == next + i && events[i].runId == runId
      {
        assert events[i] == tail[i - 1] && lines[i] == tailLines[i - 1];
      }
    }
    if Accepted(codec, lines, events, runId, next) {
      forall i | 0 <= i < |tail|
        ensures i < |tailLines| && HasText(tailLines[i]) && codec.decode(tailLines[i]) == Some(tail[i])
        ensures tail[i].sequence == next + 1 + i && tail[i].runId == runId
      {
        assert tail[i] == events[i + 1] && tailLines[i] == lines[i + 1];
      }
    }
  }

  /** The last line may be a cut-off one, for a tolerant reader. */
  predicate Ends(codec: Codec, lines: seq<Bytes>, n: nat, tolerant: bool) {
    n == |lines| || (tolerant && n + 1 == |lines| && CutOff(codec, lines[n]))
  }

  /**
   A log reads as these events exactly when each of its lines decodes to its event with the right
   number and run; a tolerant reader lets one cut-off last line pass. Everything else is corrupt.
  */
  lemma {:induction false} ReadMeans(codec: Codec, lines: seq<Bytes>, events: seq<Event>, runId: string, tolerant: bool,
                                     next: nat)
    ensures ReadLines(codec, lines, runId, tolerant, next) == Read(events)
       <==> Accepted(codec, lines, events, runId, next) && Ends(codec, lines, |events|, tolerant)
    decreases |lines|
  {
    if lines != [] {
      BlankIsWithoutText(lines[0]);
      if events == [] {
        NoEventRead(codec, lines, runId, tolerant, next);
      } else {
        AcceptedFirst(codec, lines, events, runId, next);
        ReadMeans(codec, lines[1..], events[1..], runId, tolerant, next + 1);
        EndsFirst(codec, lines, |events|, tolerant);
        FirstRead(codec, lines, events, runId, tolerant, next);
      }
    }
  }

  lemma EndsFirst(codec: Codec, lines: seq<Bytes>, n: nat, tolerant: bool)
    requires lines != [] && n > 0
    ensures Ends(codec, lines, n, tolerant) <==> Ends(codec, lines[1..], n - 1, tolerant)
  {
  }

  lemma NoEventRead(codec: Codec, lines: seq<Bytes>, runId: string, tolerant: bool, next: nat)
    requires lines != []
    ensures ReadLines(codec, lines, runId, tolerant, next) == Read([])
       <==> tolerant && |lines| == 1 && CutOff(codec, lines[0])
  {
    BlankIsWithoutText(lines[0]);
  }

  lemma FirstRead(codec: Codec, lines: seq<Bytes>, events: seq<Event>, runId: string, tolerant: bool, next: nat)
    requires lines != [] && events != []
    ensures ReadLines(codec, lines, runId, tolerant, next) == Read(events)
       <==> && HasText(lines[0]) && codec.decode(lines[0]) == Some(events[0])
            && events[0].sequence == next && events[0].runId == runId
            && ReadLines(codec, lines[1..], runId, tolerant, next + 1) == Read(events[1..])
  {
    BlankIsWithoutText(lines[0]);
    assert events == [events[0]] + events[1..];
  }

  /** The same for the bytes of a log, whose first event has number 1. */
  lemma ContentReadMeans(codec: Codec, content: Bytes, events: seq<Event>, runId: string, tolerant: bool)
    ensures ReadContent(codec, content, runId, tolerant) == Read(events)
       <==> Accepted(codec, SplitLines(content), events, runId, 1)
            && Ends(codec, SplitLines(content), |events|, tolerant)
  {
    ReadMeans(codec, SplitLines(content), events, runId, tolerant, 1);
  }

  /** A gap in the numbers, or an event of another run, makes a log unreadable for either reader. */
  lemma GapIsCorrupt(codec: Codec, lines: seq<Bytes>, runId: string, tolerant: bool, next: nat, i: nat, e: Event)
    requires i < |lines| && codec.decode(lines[i]) == Some(e) && (e.sequence != next + i || e.runId != runId)
    ensures ReadLines(codec, lines, runId, tolerant, next) == Corrupt
  {
    match ReadLines(codec, lines, runId, tolerant, next)
    case Corrupt =>
    case Read(events) => ReadMeans(codec, lines, events, runId, tolerant, next);
  }

  /** Appending to any content: refused unless it reads strictly as one event less than the new number. */
  lemma AppendOutcomes(codec: Codec, content: Bytes, e: Event, written: nat, existing: seq<Event>)
    requires Accepted(codec, SplitLines(content), existing, e.runId, 1) && |existing| == |SplitLines(content)|
    ensures var (after, result), line := Append(codec, content, e, written), codec.encode(e) + [10];
            if e.sequence != |existing| + 1 then result == Refused && after == content
            else if written < |line| then result == TornWrite && after == content + line[..written]
            else result == Appended && after == content + line
  {
    ContentReadMeans(codec, content, existing, e.runId, false);
  }

  lemma AppendToUnreadable(codec: Codec, content: Bytes, e: Event, written: nat)
    requires forall existing :: |existing| == |SplitLines(content)|
                                ==> !Accepted(codec, SplitLines(content), existing, e.runId, 1)
    ensures Append(codec, content, e, written) == (content, Refused)
  {
    match ReadContent(codec, content, e.runId, false)
    case Corrupt =>
    case Read(existing) =>
      ContentReadMeans(codec, content, existing, e.runId, false);
  }
}
