/**
 A concrete codec that meets the hypotheses of the event log, so that they can be met: every
 number in unary, between braces.
*/
module EventCodecs {
  import opened Wrappers
  import opened EventLog

  const OPEN: bv8 := 123
  const CLOSE: bv8 := 125
  const ONE: bv8 := 97
  const END: bv8 := 98

  function Unary(n: nat): Bytes {
    if n == 0 then [END] else [ONE] + Unary(n - 1)
  }

  function Chars(s: string): Bytes {
    if s == "" then [] else Unary(s[0] as int) + Chars(s[1..])
  }

  function Inner(e: Event): Bytes {
    Unary(e.sequence) + (Unary(|e.runId|) + (Chars(e.runId) + (Unary(|e.body|) + Chars(e.body))))
  }

  function Encode(e: Event): Bytes {
    [OPEN] + Inner(e) + [CLOSE]
  }

  ghost predicate Encodes(line: Bytes, e: Event) {
    line == Encode(e) || line == Encode(e) + [NL]
  }

  ghost function Decode(line: Bytes): Option<Event> {
    if exists e :: Encodes(line, e) then var e :| Encodes(line, e); Some(e) else None
  }

  // ---- Encodings are uniquely readable -------------------------------------

  lemma {:induction false} UnaryUnique(m: nat, n: nat, x: Bytes, y: Bytes)
    requires Unary(m) + x == Unary(n) + y
    ensures m == n && x == y
  {
    var left, right := Unary(m) + x, Unary(n) + y;
    assert left[0] == Unary(m)[0] && right[0] == Unary(n)[0];
    if m == 0 || n == 0 {
      assert left[1..] == x && right[1..] == y;
    } else {
      assert left[1..] == Unary(m - 1) + x && right[1..] == Unary(n - 1) + y;
      UnaryUnique(m - 1, n - 1, x, y);
    }
  }

  lemma {:induction false} CharsUnique(s: string, t: string, x: Bytes, y: Bytes)
    requires |s| == |t| && Chars(s) + x == Chars(t) + y
    ensures s == t && x == y
  {
    if s == "" {
      assert Chars(s) + x == x && Chars(t) + y == y;
    } else {
      assert Chars(s) + x == Unary(s[0] as int) + (Chars(s[1..]) + x);
      assert Chars(t) + y == Unary(t[0] as int) + (Chars(t[1..]) + y);
      UnaryUnique(s[0] as int, t[0] as int, Chars(s[1..]) + x, Chars(t[1..]) + y);
      CharsUnique(s[1..], t[1..], x, y);
      assert s == [s[0]] + s[1..] && t == [t[0]] + t[1..];
    }
  }

  lemma TextUnique(s: string, t: string, x: Bytes, y: Bytes)
    requires Unary(|s|) + (Chars(s) + x) == Unary(|t|) + (Chars(t) + y)
    ensures s == t && x == y
  {
    UnaryUnique(|s|, |t|, Chars(s) + x, Chars(t) + y);
    CharsUnique(s, t, x, y);
  }

  lemma EncodeUnique(e: Event, f: Event)
    requires Encode(e) == Encode(f)
    ensures e == f
  {
    assert Inner(e) == Encode(e)[1..|Encode(e)| - 1] && Inner(f) == Encode(f)[1..|Encode(f)| - 1];
    var tail, tail' := Unary(|e.body|) + Chars(e.body), Unary(|f.body|) + Chars(f.body);
    UnaryUnique(e.sequence, f.sequence, Unary(|e.runId|) + (Chars(e.runId) + tail),
                Unary(|f.runId|) + (Chars(f.runId) + tail'));
    TextUnique(e.runId, f.runId, tail, tail');
    assert Chars(e.body) == Chars(e.body) + [] && Chars(f.body) == Chars(f.body) + [];
    TextUnique(e.body, f.body, [], []);
  }

  // ---- The closing brace occurs at the end only ----------------------------

  predicate Letters(line: Bytes) {
    forall i :: 0 <= i < |line| ==> line[i] == ONE || line[i] == END
  }

  lemma {:induction false} UnaryLetters(n: nat)
    ensures Letters(Unary(n))
  {
    if n > 0 {
      UnaryLetters(n - 1);
    }
  }

  lemma {:induction false} CharsLetters(s: string)
    ensures Letters(Chars(s))
  {
    if s != "" {
      UnaryLetters(s[0] as int);
      CharsLetters(s[1..]);
    }
  }

  lemma LettersConcat(a: Bytes, b: Bytes)
    requires Letters(a) && Letters(b)
    ensures Letters(a + b)
  {
  }

  lemma InnerLetters(e: Event)
    ensures Letters(Inner(e))
  {
    UnaryLetters(e.sequence);
    UnaryLetters(|e.runId|);
    CharsLetters(e.runId);
    UnaryLetters(|e.body|);
    CharsLetters(e.body);
    LettersConcat(Unary(|e.body|), Chars(e.body));
    LettersConcat(Chars(e.runId), Unary(|e.body|) + Chars(e.body));
    LettersConcat(Unary(|e.runId|), Chars(e.runId) + (Unary(|e.body|) + Chars(e.body)));
    LettersConcat(Unary(e.sequence), Unary(|e.runId|) + (Chars(e.runId) + (Unary(|e.body|) + Chars(e.body))));
  }

  /** The first closing brace of an encoding, with or without its newline, is its last byte. */
  lemma ClosesOnce(line: Bytes, e: Event)
    requires Encodes(line, e)
    ensures |line| >= |Encode(e)| >= 2 && line[|Encode(e)| - 1] == CLOSE
    ensures forall i :: 0 <= i < |line| && line[i] == CLOSE ==> i == |Encode(e)| - 1
    ensures |line| <= |Encode(e)| + 1
  {
    InnerLetters(e);
    assert forall i :: 1 <= i < |Encode(e)| - 1 ==> line[i] == Inner(e)[i - 1];
  }

  lemma DecodesTo(line: Bytes, e: Event)
    requires Encodes(line, e)
    ensures Decode(line) == Some(e)
  {
    var f := Decode(line).value;
    ClosesOnce(line, e);
    ClosesOnce(line, f);
    assert Encode(e) == line[..|Encode(e)|] && Encode(f) == line[..|Encode(f)|];
    EncodeUnique(e, f);
  }

  lemma PrefixUnreadable(e: Event, k: nat)
    requires k < |Encode(e)|
    ensures Decode(Encode(e)[..k]) == None
  {
    var line := Encode(e)[..k];
    ClosesOnce(Encode(e), e);
    assert forall i :: 0 <= i < |line| ==> line[i] == Encode(e)[i] && line[i] != CLOSE;
    if f :| Encodes(line, f) {
      ClosesOnce(line, f);
    }
  }

  lemma TwoUnreadable(e: Event, f: Event)
    ensures Decode(Encode(e) + Encode(f) + [NL]) == None
  {
    var line := Encode(e) + Encode(f) + [NL];
    ClosesOnce(Encode(e), e);
    ClosesOnce(Encode(f), f);
    assert line[|Encode(e)| - 1] == CLOSE && line[|Encode(e)| + |Encode(f)| - 1] == CLOSE;
    if g :| Encodes(line, g) {
      ClosesOnce(line, g);
    }
  }

  /** There is a codec as the log's results require. */
  lemma GoodCodecExists() returns (codec: Codec)
    ensures GoodCodec(codec)
  {
    codec := Codec(e => Encode(e), line => Decode(line));
    forall e: Event
      ensures GoodCodecFor(codec, e)
    {
      InnerLetters(e);
      DecodesTo(Encode(e), e);
      DecodesTo(Encode(e) + [NL], e);
      forall k | 0 < k < |Encode(e)|
        ensures codec.decode(codec.encode(e)[..k]) == None
      {
        PrefixUnreadable(e, k);
      }
      forall f: Event
        ensures RunTogetherFails(codec, e, f)
      {
        TwoUnreadable(e, f);
      }
    }
  }
}
