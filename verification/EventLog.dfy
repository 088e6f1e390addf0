/** The event log of a run: one encoded event per line, and what a cut-off log still yields. */
module EventLog {
  import opened Wrappers

  const NL: bv8 := 10
  const CR: bv8 := 13

  datatype Event = Event(sequence: nat, runId: string, body: string)

  /** Serialisation and validation of one event. */
  datatype Codec = Codec(encode: Event -> Bytes, decode: Bytes -> Option<Event>)

  predicate IsBreak(b: bv8) {
    b == NL || b == CR
  }

  predicate IsSpace(b: bv8) {
    b == 32 || 9 <= b <= 13
  }

  predicate Blank(line: Bytes) {
    forall i :: 0 <= i < |line| ==> IsSpace(line[i])
  }

  predicate NoBreak(line: Bytes) {
    forall i :: 0 <= i < |line| ==> !IsBreak(line[i])
  }

  /**
   What JSON objects give: an encoding is one line that starts with a brace, reads back with or
   without its newline, and neither a strict prefix of it nor two run together can be read.
  */
  ghost predicate GoodCodecFor(codec: Codec, e: Event) {
    var line := codec.encode(e);
    && line != [] && NoBreak(line) && !IsSpace(line[0])
    && codec.decode(line) == Some(e) && codec.decode(line + [NL]) == Some(e)
    && (forall k :: 0 < k < |line| ==> codec.decode(line[..k]) == None)
    && (forall f: Event :: RunTogetherFails(codec, e, f))
  }

  ghost predicate RunTogetherFails(codec: Codec, e: Event, f: Event) {
    codec.decode(codec.encode(e) + codec.encode(f) + [NL]) == None
  }

  ghost predicate GoodCodec(codec: Codec) {
    forall e: Event :: GoodCodecFor(codec, e)
  }

  // ---- Lines ---------------------------------------------------------------

  /** Length of the first line with its terminator, one of "\n", "\r" and "\r\n". */
  function FirstLine(content: Bytes): (n: nat)
    ensures n <= |content| && (content != [] ==> n > 0)
  {
    if content == [] then 0
    else if content[0] == NL then 1
    else if content[0] == CR then (if |content| > 1 && content[1] == NL then 2 else 1)
    else 1 + FirstLine(content[1..])
  }

  function SplitLines(content: Bytes): seq<Bytes> {
    if content == [] then []
    else [content[..FirstLine(content)]] + SplitLines(content[FirstLine(content)..])
  }

  lemma {:induction false} LineThenRest(line: Bytes, rest: Bytes)
    requires NoBreak(line)
    ensures FirstLine(line + [NL] + rest) == |line| + 1
  {
    if line == [] {
      assert ([NL] + rest)[0] == NL;
      assert line + [NL] + rest == [NL] + rest;
    } else {
      assert IsBreak(line[0]) ==> false;
      LineThenRest(line[1..], rest);
      assert (line + [NL] + rest)[1..] == line[1..] + [NL] + rest;
    }
  }

  lemma {:induction false} UnfinishedLine(line: Bytes)
    requires NoBreak(line)
    ensures FirstLine(line) == |line|
  {
    if line != [] {
      assert !IsBreak(line[0]);
      UnfinishedLine(line[1..]);
    }
  }

  lemma SplitLine(line: Bytes, rest: Bytes)
    requires NoBreak(line)
    ensures SplitLines(line + [NL] + rest) == [line + [NL]] + SplitLines(rest)
  {
    var content := line + [NL] + rest;
    LineThenRest(line, rest);
    assert content[..|line| + 1] == line + [NL] && content[|line| + 1..] == rest;
  }

  lemma SplitUnfinished(line: Bytes)
    requires NoBreak(line) && line != []
    ensures SplitLines(line) == [line]
  {
    UnfinishedLine(line);
    assert line[..|line|] == line && line[|line|..] == [];
  }

  // ---- Reading -------------------------------------------------------------

  datatype ReadResult = Read(events: seq<Event>) | Corrupt

  predicate Unterminated(line: Bytes) {
    line == [] || !IsBreak(line[|line| - 1])
  }

  /** The events on the lines, the first of which has to carry number `next`. */
  function ReadLines(codec: Codec, lines: seq<Bytes>, runId: string, tolerant: bool, next: nat): ReadResult
    decreases |lines|
  {
    if lines == [] then Read([])
    else if Blank(lines[0]) then Corrupt
    else
      match codec.decode(lines[0])
      case None => if tolerant && |lines| == 1 && Unterminated(lines[0]) then Read([]) else Corrupt
      case Some(e) =>
        if e.sequence != next || e.runId != runId then Corrupt
        else
          match ReadLines(codec, lines[1..], runId, tolerant, next + 1)
          case Read(events) => Read([e] + events)
          case Corrupt => Corrupt
  }

  function ReadContent(codec: Codec, content: Bytes, runId: string, tolerant: bool): ReadResult {
    ReadLines(codec, SplitLines(content), runId, tolerant, 1)
  }

  method ReadEvents(codec: Codec, content: Bytes, runId: string, tolerant: bool) returns (result: ReadResult)
    ensures result == ReadContent(codec, content, runId, tolerant)
  {
    var lines := SplitLines(content);
    var events: seq<Event> := [];
    for index := 0 to |lines|
      invariant |events| == index
      invariant ReadContent(codec, content, runId, tolerant)
             == Prepend(events, ReadLines(codec, lines[index..], runId, tolerant, index + 1))
    {
      var raw := lines[index];
      var rest := lines[index..];
      assert rest[0] == raw && rest[1..] == lines[index + 1..];
      if Blank(raw) {
        return Corrupt;
      }
      var decoded := codec.decode(raw);
      if decoded == None {
        if tolerant && index == |lines| - 1 && Unterminated(raw) {
          return Read(events);
        }
        return Corrupt;
      }
      if decoded.value.sequence != |events| + 1 || decoded.value.runId != runId {
        return Corrupt;
      }
      ghost var tail := ReadLines(codec, lines[index + 1..], runId, tolerant, index + 2);
      assert tail.Read? ==> events + ([decoded.value] + tail.events) == (events + [decoded.value]) + tail.events;
      events := events + [decoded.value];
    }
    return Read(events);
  }

  function Prepend(events: seq<Event>, result: ReadResult): ReadResult {
    match result
    case Read(more) => Read(events + more)
    case Corrupt => Corrupt
  }

  // ---- A log and its truncations -------------------------------------------

  function Line(codec: Codec, e: Event): Bytes {
    codec.encode(e) + [NL]
  }

  function LogOf(codec: Codec, events: seq<Event>): Bytes {
    if events == [] then [] else Line(codec, events[0]) + LogOf(codec, events[1..])
  }

  /** Numbers counting up from `next`, all of one run. */
  predicate NumberedFrom(events: seq<Event>, runId: string, next: nat) {
    forall i :: 0 <= i < |events| ==> events[i].sequence == next + i && events[i].runId == runId
  }

  /** How many encodings lie completely within the first `cut` bytes of the log. */
  function Complete(codec: Codec, events: seq<Event>, cut: nat): (n: nat)
    ensures n <= |events|
  {
    if events == [] || cut < |codec.encode(events[0])| then 0
    else if cut <= |codec.encode(events[0])| then 1
    else 1 + Complete(codec, events[1..], cut - |Line(codec, events[0])|)
  }

  /** The cut goes through an encoding. */
  predicate CutInside(codec: Codec, events: seq<Event>, cut: nat) {
    events != []
    && if cut <= |codec.encode(events[0])| then 0 < cut < |codec.encode(events[0])|
       else CutInside(codec, events[1..], cut - |Line(codec, events[0])|)
  }

  /** The log cut within its first line. */
  lemma ReadFirstFragment(codec: Codec, e: Event, cut: nat, runId: string, tolerant: bool)
    requires GoodCodec(codec) && cut <= |codec.encode(e)| && e.runId == runId
    ensures codec.encode(e) != []
    ensures ReadLines(codec, SplitLines(codec.encode(e)[..cut]), runId, tolerant, e.sequence)
         == if cut == |codec.encode(e)| then Read([e])
            else if cut == 0 || tolerant then Read([])
            else Corrupt
  {
    assert GoodCodecFor(codec, e);
    var fragment := codec.encode(e)[..cut];
    if cut > 0 {
      SplitUnfinished(fragment);
      assert !IsSpace(fragment[0]) && !Blank(fragment);
      assert cut == |codec.encode(e)| ==> fragment == codec.encode(e);
    }
  }

  /** Reading a whole line and then the rest. */
  lemma ReadFirstLine(codec: Codec, e: Event, rest: Bytes, runId: string, tolerant: bool)
    requires GoodCodec(codec) && e.runId == runId
    ensures ReadLines(codec, SplitLines(Line(codec, e) + rest), runId, tolerant, e.sequence)
         == Prepend([e], ReadLines(codec, SplitLines(rest), runId, tolerant, e.sequence + 1))
  {
    assert GoodCodecFor(codec, e);
    SplitLine(codec.encode(e), rest);
    assert Line(codec, e)[0] == codec.encode(e)[0];
    assert !Blank(Line(codec, e));
    assert ([Line(codec, e)] + SplitLines(rest))[1..] == SplitLines(rest);
  }

  lemma CutInFirstLine(codec: Codec, events: seq<Event>, cut: nat)
    requires events != [] && cut <= |codec.encode(events[0])| && codec.encode(events[0]) != []
    ensures LogOf(codec, events)[..cut] == codec.encode(events[0])[..cut]
    ensures events[..Complete(codec, events, cut)] == if cut == |codec.encode(events[0])| then [events[0]] else []
    ensures CutInside(codec, events, cut) <==> 0 < cut < |codec.encode(events[0])|
  {
  }

  /** The remains of a log begin with its first line, unless the cut is before that line's newline. */
  lemma CutBehindLine(codec: Codec, events: seq<Event>, cut: nat)
    requires events != [] && |codec.encode(events[0])| < cut <= |LogOf(codec, events)|
    ensures var remaining := cut - |Line(codec, events[0])|;
            && LogOf(codec, events)[..cut] == Line(codec, events[0]) + LogOf(codec, events[1..])[..remaining]
            && events[..Complete(codec, events, cut)]
               == [events[0]] + events[1..][..Complete(codec, events[1..], remaining)]
            && (CutInside(codec, events, cut) <==> CutInside(codec, events[1..], remaining))
  {
  }

  /** What reading a log cut after `cut` bytes should give. */
  function Expected(codec: Codec, events: seq<Event>, cut: nat, tolerant: bool): ReadResult {
    if tolerant || !CutInside(codec, events, cut) then Read(events[..Complete(codec, events, cut)]) else Corrupt
  }

  lemma ExpectedInFirstLine(codec: Codec, events: seq<Event>, cut: nat, tolerant: bool)
    requires events != [] && cut <= |codec.encode(events[0])| && codec.encode(events[0]) != []
    ensures Expected(codec, events, cut, tolerant)
         == if cut == |codec.encode(events[0])| then Read([events[0]])
            else if cut == 0 || tolerant then Read([])
            else Corrupt
  {
    CutInFirstLine(codec, events, cut);
  }

  lemma ExpectedBehindLine(codec: Codec, events: seq<Event>, cut: nat, tolerant: bool)
    requires events != [] && |codec.encode(events[0])| < cut <= |LogOf(codec, events)|
    ensures Expected(codec, events, cut, tolerant)
         == Prepend([events[0]], Expected(codec, events[1..], cut - |Line(codec, events[0])|, tolerant))
  {
    CutBehindLine(codec, events, cut);
  }

  /**
   Any truncation of a log yields, read tolerantly, exactly the events that are complete in it;
   a strict reader accepts it with the same events exactly when no encoding is cut through.
  */
  lemma {:induction false} TruncationReadsPrefix(codec: Codec, events: seq<Event>, cut: nat, runId: string, next: nat,
                                                 tolerant: bool)
    requires GoodCodec(codec) && NumberedFrom(events, runId, next) && cut <= |LogOf(codec, events)|
    ensures ReadLines(codec, SplitLines(LogOf(codec, events)[..cut]), runId, tolerant, next)
         == Expected(codec, events, cut, tolerant)
    decreases |events|
  {
    if events != [] {
      var e, rest := events[0], events[1..];
      if cut <= |codec.encode(e)| {
        ReadFirstFragment(codec, e, cut, runId, tolerant);
        CutInFirstLine(codec, events, cut);
        ExpectedInFirstLine(codec, events, cut, tolerant);
      } else {
        var remaining := cut - |Line(codec, e)|;
        CutBehindLine(codec, events, cut);
        ExpectedBehindLine(codec, events, cut, tolerant);
        TruncationReadsPrefix(codec, rest, remaining, runId, next + 1, tolerant);
        ReadFirstLine(codec, e, LogOf(codec, rest)[..remaining], runId, tolerant);
      }
    }
  }

  /** A log that was not cut reads back whole. */
  lemma {:induction false} WholeLogReadsBack(codec: Codec, events: seq<Event>, runId: string, tolerant: bool)
    requires GoodCodec(codec) && NumberedFrom(events, runId, 1)
    ensures ReadContent(codec, LogOf(codec, events), runId, tolerant) == Read(events)
  {
    var content := LogOf(codec, events);
    CutAtEnd(codec, events);
    TruncationReadsPrefix(codec, events, |content|, runId, 1, tolerant);
    assert content[..|content|] == content;
  }

  lemma {:induction false} CutAtEnd(codec: Codec, events: seq<Event>)
    ensures Complete(codec, events, |LogOf(codec, events)|) == |events|
    ensures !CutInside(codec, events, |LogOf(codec, events)|)
  {
    if events != [] {
      CutAtEnd(codec, events[1..]);
    }
  }

  // ---- Appending -----------------------------------------------------------

  lemma {:induction false} LogOfAppend(codec: Codec, events: seq<Event>, e: Event)
    ensures LogOf(codec, events + [e]) == LogOf(codec, events) + Line(codec, e)
  {
    if events == [] {
      assert events + [e] == [e] && [e][1..] == [];
    } else {
      LogOfAppend(codec, events[1..], e);
      assert (events + [e])[1..] == events[1..] + [e];
    }
  }

  datatype AppendResult = Appended | Refused | TornWrite

  /** One append of which the system wrote the first `written` bytes. */
  function Append(codec: Codec, content: Bytes, e: Event, written: nat): (Bytes, AppendResult) {
    match ReadContent(codec, content, e.runId, false)
    case Corrupt => (content, Refused)
    case Read(existing) =>
      if e.sequence != |existing| + 1 then (content, Refused)
      else if written < |Line(codec, e)| then (content + Line(codec, e)[..written], TornWrite)
      else (content + Line(codec, e), Appended)
  }

  class EventFile {
    var content: Bytes

    constructor ()
      ensures content == []
    {
      content := [];
    }

    method AppendEvent(codec: Codec, e: Event, written: nat) returns (result: AppendResult)
      modifies this
      ensures (content, result) == Append(codec, old(content), e, written)
    {
      var existing := ReadEvents(codec, content, e.runId, false);
      if existing.Corrupt? || e.sequence != |existing.events| + 1 {
        return Refused;
      }
      var encoded := Line(codec, e);
      if written < |encoded| {
        content := content + encoded[..written];
        return TornWrite;
      }
      content := content + encoded;
      return Appended;
    }
  }

  /** On an intact log the sequence check is that the number is the next one, and success extends the log. */
  lemma AppendExtendsLog(codec: Codec, events: seq<Event>, e: Event, written: nat)
    requires GoodCodec(codec) && NumberedFrom(events, e.runId, 1)
    ensures var (content, result) := Append(codec, LogOf(codec, events), e, written);
            && (result == Refused <==> e.sequence != |events| + 1)
            && (result == Refused ==> content == LogOf(codec, events))
            && (result == Appended ==> content == LogOf(codec, events + [e]))
            && (result == TornWrite ==>
                  content <= LogOf(codec, events + [e]) && |content| == |LogOf(codec, events)| + written)
  {
    WholeLogReadsBack(codec, events, e.runId, false);
    LogOfAppend(codec, events, e);
  }

  /** A torn append leaves a truncation of the longer log. */
  lemma TornContent(codec: Codec, events: seq<Event>, e: Event, written: nat, cut: nat)
    requires GoodCodec(codec) && NumberedFrom(events, e.runId, 1) && e.sequence == |events| + 1
    requires written < |Line(codec, e)| && cut == |LogOf(codec, events)| + written
    ensures cut <= |LogOf(codec, events + [e])|
    ensures Append(codec, LogOf(codec, events), e, written).0 == LogOf(codec, events + [e])[..cut]
  {
    WholeLogReadsBack(codec, events, e.runId, false);
    LogOfAppend(codec, events, e);
  }

  /** A torn append never costs an earlier event, and keeps the new one when only the newline is missing. */
  lemma TornAppendStillReads(codec: Codec, events: seq<Event>, e: Event, written: nat)
    requires GoodCodec(codec) && NumberedFrom(events, e.runId, 1) && e.sequence == |events| + 1
    requires written < |Line(codec, e)|
    ensures ReadContent(codec, Append(codec, LogOf(codec, events), e, written).0, e.runId, true)
         == Read(if written == |codec.encode(e)| then events + [e] else events)
  {
    var all, cut := events + [e], |LogOf(codec, events)| + written;
    TornContent(codec, events, e, written, cut);
    TruncationReadsPrefix(codec, all, cut, e.runId, 1, true);
    CompleteOfTorn(codec, events, e, written);
    PrefixOfAppended(events, e);
  }

  lemma PrefixOfAppended(events: seq<Event>, e: Event)
    ensures (events + [e])[..|events|] == events && (events + [e])[..|events| + 1] == events + [e]
  {
  }

  lemma {:induction false} CompleteOfTorn(codec: Codec, events: seq<Event>, e: Event, written: nat)
    requires written <= |codec.encode(e)|
    ensures Complete(codec, events + [e], |LogOf(codec, events)| + written)
         == if written == |codec.encode(e)| then |events| + 1 else |events|
  {
    if events == [] {
      assert events + [e] == [e];
    } else {
      assert (events + [e])[1..] == events[1..] + [e];
      CompleteOfTorn(codec, events[1..], e, written);
    }
  }

  /** What an append may safely follow: nothing, or a finished line. */
  predicate EndsLine(content: Bytes) {
    content == [] || content[|content| - 1] == NL
  }

  /** What is read back when an event follows the remains of a log. */
  function ReadAfter(codec: Codec, content: Bytes, e: Event, tolerant: bool, next: nat): ReadResult {
    ReadLines(codec, SplitLines(content + Line(codec, e)), e.runId, tolerant, next)
  }

  lemma AppendToNothing(codec: Codec, e: Event, tolerant: bool)
    requires GoodCodec(codec)
    ensures ReadAfter(codec, [], e, tolerant, e.sequence) == Read([e])
  {
    assert [] + Line(codec, e) == Line(codec, e) + [];
    ReadFirstLine(codec, e, [], e.runId, tolerant);
  }

  lemma AppendBehindLine(codec: Codec, first: Event, tail: Bytes, e: Event, tolerant: bool)
    requires GoodCodec(codec) && first.runId == e.runId
    ensures ReadAfter(codec, Line(codec, first) + tail, e, tolerant, first.sequence)
         == Prepend([first], ReadAfter(codec, tail, e, tolerant, first.sequence + 1))
  {
    assert (Line(codec, first) + tail) + Line(codec, e) == Line(codec, first) + (tail + Line(codec, e));
    ReadFirstLine(codec, first, tail + Line(codec, e), e.runId, tolerant);
  }

  lemma LineBefore(codec: Codec, first: Event, tail: Bytes)
    ensures EndsLine(Line(codec, first) + tail) <==> EndsLine(tail)
  {
    var content := Line(codec, first) + tail;
    assert content[|content| - 1] == if tail == [] then NL else tail[|tail| - 1];
  }

  /** What reading the remains of a log with one more event behind them should give. */
  function ExpectedAfter(codec: Codec, events: seq<Event>, cut: nat, e: Event): ReadResult
    requires cut <= |LogOf(codec, events)|
  {
    if EndsLine(LogOf(codec, events)[..cut]) then Read(events[..Complete(codec, events, cut)] + [e]) else Corrupt
  }

  /** The cut is within the first line or right behind its encoding: nothing is left, or one event without its newline. */
  lemma ReadAfterFirst(codec: Codec, events: seq<Event>, cut: nat, e: Event, next: nat, tolerant: bool)
    requires GoodCodec(codec) && NumberedFrom(events, e.runId, next) && events != []
    requires cut <= |codec.encode(events[0])| && !CutInside(codec, events, cut)
    requires e.sequence == next + Complete(codec, events, cut)
    ensures ReadAfter(codec, LogOf(codec, events)[..cut], e, tolerant, next) == ExpectedAfter(codec, events, cut, e)
  {
    TwoOnOneLine(codec, events[0], e, e.runId, tolerant, next);
    CutInFirstLine(codec, events, cut);
    if cut == 0 {
      AppendToNothing(codec, e, tolerant);
    } else {
      assert codec.encode(events[0])[..|codec.encode(events[0])|] == codec.encode(events[0]);
    }
  }

  lemma ExpectedAfterLine(codec: Codec, events: seq<Event>, cut: nat, e: Event)
    requires events != [] && |codec.encode(events[0])| < cut <= |LogOf(codec, events)|
    ensures ExpectedAfter(codec, events, cut, e)
         == Prepend([events[0]], ExpectedAfter(codec, events[1..], cut - |Line(codec, events[0])|, e))
  {
    CutBehindLine(codec, events, cut);
    LineBefore(codec, events[0], LogOf(codec, events[1..])[..cut - |Line(codec, events[0])|]);
  }

  /** An event behind the remains of a log is read back exactly when they are empty or end with a newline. */
  lemma {:induction false} ReadAfterTruncation(codec: Codec, events: seq<Event>, cut: nat, e: Event, next: nat,
                                               tolerant: bool)
    requires GoodCodec(codec) && NumberedFrom(events, e.runId, next) && cut <= |LogOf(codec, events)|
    requires !CutInside(codec, events, cut) && e.sequence == next + Complete(codec, events, cut)
    ensures ReadAfter(codec, LogOf(codec, events)[..cut], e, tolerant, next) == ExpectedAfter(codec, events, cut, e)
    decreases |events|
  {
    if events == [] {
      AppendToNothing(codec, e, tolerant);
    } else if cut <= |codec.encode(events[0])| {
      ReadAfterFirst(codec, events, cut, e, next, tolerant);
    } else {
      var remaining := cut - |Line(codec, events[0])|;
      CutBehindLine(codec, events, cut);
      ExpectedAfterLine(codec, events, cut, e);
      AppendBehindLine(codec, events[0], LogOf(codec, events[1..])[..remaining], e, tolerant);
      ReadAfterTruncation(codec, events[1..], remaining, e, next + 1, tolerant);
    }
  }

  lemma TwoOnOneLine(codec: Codec, first: Event, second: Event, runId: string, tolerant: bool, next: nat)
    requires GoodCodec(codec)
    ensures ReadLines(codec, SplitLines(codec.encode(first) + Line(codec, second)), runId, tolerant, next) == Corrupt
    ensures codec.encode(first) != [] && !EndsLine(codec.encode(first))
  {
    assert GoodCodecFor(codec, first) && GoodCodecFor(codec, second) && RunTogetherFails(codec, first, second);
    var both := codec.encode(first) + codec.encode(second);
    assert both + [NL] + [] == codec.encode(first) + Line(codec, second);
    assert codec.encode(first) + codec.encode(second) + [NL] == both + [NL];
    SplitLine(both, []);
    assert (both + [NL])[0] == codec.encode(first)[0];
    assert IsBreak((both + [NL])[|both|]);
    assert !IsBreak(codec.encode(first)[|codec.encode(first)| - 1]);
  }

  /**
   Appending to a log that lost its final bytes: refused exactly when an encoding was cut
   through; otherwise accepted, and then its events and the new one are read back if and only
   if what was left is empty or ends with a newline.
  */
  lemma AppendAfterTruncation(codec: Codec, events: seq<Event>, cut: nat, e: Event, tolerant: bool)
    requires GoodCodec(codec) && NumberedFrom(events, e.runId, 1) && cut <= |LogOf(codec, events)|
    requires e.sequence == Complete(codec, events, cut) + 1
    ensures var content := LogOf(codec, events)[..cut];
            var (after, result) := Append(codec, content, e, |Line(codec, e)|);
            if CutInside(codec, events, cut) then result == Refused && after == content
            else
              && result == Appended
              && ReadContent(codec, after, e.runId, tolerant)
                 == if EndsLine(content) then Read(events[..Complete(codec, events, cut)] + [e]) else Corrupt
  {
    TruncationReadsPrefix(codec, events, cut, e.runId, 1, false);
    if !CutInside(codec, events, cut) {
      ReadAfterTruncation(codec, events, cut, e, 1, tolerant);
    }
  }

  /** It does happen: one event without its newline is accepted as a log, and the next event corrupts it. */
  lemma LostNewlineCorrupts(codec: Codec, runId: string, tolerant: bool)
    requires GoodCodec(codec)
    ensures var first, second := Event(1, runId, ""), Event(2, runId, "");
            var (after, result) := Append(codec, codec.encode(first), second, |Line(codec, second)|);
            && ReadContent(codec, codec.encode(first), runId, false) == Read([first])
            && result == Appended && ReadContent(codec, after, runId, tolerant) == Corrupt
  {
    var first, second := Event(1, runId, ""), Event(2, runId, "");
    ReadFirstFragment(codec, first, |codec.encode(first)|, runId, false);
    assert codec.encode(first)[..|codec.encode(first)|] == codec.encode(first);
    TwoOnOneLine(codec, first, second, runId, tolerant, 1);
  }
}
