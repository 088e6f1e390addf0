/**
 Parsing of JSON Pointers (sections 3 and 4 of RFC 6901): split at "/", then replace
 "~1" and after it "~0" in every part, by leftmost non-overlapping replacement.
 */
module JsonPointer {
  import opened Wrappers
  import opened JsonTree

  function SlashIndex(s: string): (k: nat)
    ensures k <= |s|
    ensures k < |s| ==> s[k] == '/'
    ensures forall i :: 0 <= i < k ==> s[i] != '/'
  {
    if s == [] || s[0] == '/' then 0 else 1 + SlashIndex(s[1..])
  }

  function Split(s: string): (parts: seq<string>)
    ensures parts != []
    decreases |s|
  {
    var k := SlashIndex(s);
    if k == |s| then [s] else [s[..k]] + Split(s[k + 1..])
  }

  /** Python's `s.replace(ab, r)` for a two-character pattern. */
  function ReplacePair(s: string, a: char, b: char, r: char): string {
    if |s| < 2 then s
    else if s[0] == a && s[1] == b then [r] + ReplacePair(s[2..], a, b, r)
    else [s[0]] + ReplacePair(s[1..], a, b, r)
  }

  function Unescape(part: string): string {
    ReplacePair(ReplacePair(part, '~', '1', '/'), '~', '0', '~')
  }

  function UnescapeAll(parts: seq<string>): Path {
    if parts == [] then [] else [Unescape(parts[0])] + UnescapeAll(parts[1..])
  }

  /** None stands for the error raised on a pointer that neither is empty nor starts with "/". */
  function ParsePointer(pointer: string): Option<Path> {
    if pointer == "" then Some([])
    else if pointer[0] != '/' then None
    else Some(UnescapeAll(Split(pointer[1..])))
  }

  // ---- Writing a pointer, as the standard prescribes -----------------------

  function Escape(token: string): string {
    if token == "" then ""
    else (if token[0] == '~' then "~0" else if token[0] == '/' then "~1" else [token[0]])
         + Escape(token[1..])
  }

  function FormatPointer(tokens: Path): string {
    if tokens == [] then "" else "/" + Escape(tokens[0]) + FormatPointer(tokens[1..])
  }

  /** The escape syntax of the standard: "~" occurs only as "~0" or "~1". */
  predicate WellEscaped(s: string) {
    forall i :: 0 <= i < |s| && s[i] == '~' ==> i + 1 < |s| && (s[i + 1] == '0' || s[i + 1] == '1')
  }

  predicate WellFormed(pointer: string) {
    WellEscaped(pointer) && (pointer == "" || pointer[0] == '/')
  }

  lemma SuffixWellEscaped(s: string, k: nat)
    requires WellEscaped(s) && k <= |s|
    ensures WellEscaped(s[k..])
  {
    forall i | 0 <= i < |s[k..]| && s[k..][i] == '~'
      ensures i + 1 < |s[k..]| && (s[k..][i + 1] == '0' || s[k..][i + 1] == '1')
    {
      assert s[k + i] == '~';
    }
  }

  // ---- One escape at a time ------------------------------------------------

  lemma ReplaceSkips(c: char, s: string, a: char, b: char, r: char)
    requires c != a
    ensures ReplacePair([c] + s, a, b, r) == [c] + ReplacePair(s, a, b, r)
  {
    var cs := [c] + s;
    assert cs[1..] == s;
  }

  lemma ReplaceHits(s: string, a: char, b: char, r: char)
    ensures ReplacePair([a, b] + s, a, b, r) == [r] + ReplacePair(s, a, b, r)
  {
    var abs := [a, b] + s;
    assert abs[2..] == s;
  }

  lemma ReplaceMisses(c: char, s: string, a: char, b: char, r: char)
    requires c != b && c != a
    ensures ReplacePair([a, c] + s, a, b, r) == [a, c] + ReplacePair(s, a, b, r)
  {
    var acs := [a, c] + s;
    assert acs[1..] == [c] + s;
    ReplaceSkips(c, s, a, b, r);
    assert [a] + ([c] + ReplacePair(s, a, b, r)) == [a, c] + ReplacePair(s, a, b, r);
  }

  lemma UnescapePlain(c: char, s: string)
    requires c != '~'
    ensures Unescape([c] + s) == [c] + Unescape(s)
  {
    ReplaceSkips(c, s, '~', '1', '/');
    ReplaceSkips(c, ReplacePair(s, '~', '1', '/'), '~', '0', '~');
  }

  lemma UnescapeTilde(s: string)
    ensures Unescape("~0" + s) == "~" + Unescape(s)
  {
    ReplaceMisses('0', s, '~', '1', '/');
    ReplaceHits(ReplacePair(s, '~', '1', '/'), '~', '0', '~');
  }

  lemma UnescapeSlash(s: string)
    ensures Unescape("~1" + s) == "/" + Unescape(s)
  {
    ReplaceHits(s, '~', '1', '/');
    ReplaceSkips('/', ReplacePair(s, '~', '1', '/'), '~', '0', '~');
  }

  lemma {:induction false} UnescapeEscape(token: string)
    ensures Unescape(Escape(token)) == token
    ensures '/' !in Escape(token)
  {
    if token != "" {
      var rest := Escape(token[1..]);
      UnescapeEscape(token[1..]);
      if token[0] == '~' {
        UnescapeTilde(rest);
      } else if token[0] == '/' {
        UnescapeSlash(rest);
      } else {
        UnescapePlain(token[0], rest);
      }
    }
  }

  lemma {:induction false} EscapeUnescape(part: string)
    requires WellEscaped(part) && '/' !in part
    ensures Escape(Unescape(part)) == part
  {
    if part != "" {
      if part[0] == '~' {
        var rest := part[2..];
        assert part == [part[0], part[1]] + rest;
        SuffixWellEscaped(part, 2);
        EscapeUnescape(rest);
        if part[1] == '0' {
          UnescapeTilde(rest);
          var u := "~" + Unescape(rest);
          assert u[1..] == Unescape(rest);
        } else {
          UnescapeSlash(rest);
          var u := "/" + Unescape(rest);
          assert u[1..] == Unescape(rest);
        }
      } else {
        var rest := part[1..];
        assert part == [part[0]] + rest;
        SuffixWellEscaped(part, 1);
        EscapeUnescape(rest);
        UnescapePlain(part[0], rest);
        var u := [part[0]] + Unescape(rest);
        assert u[1..] == Unescape(rest);
      }
    }
  }

  // ---- Whole pointers ------------------------------------------------------

  lemma SplitOne(a: string)
    requires '/' !in a
    ensures Split(a) == [a]
  {
  }

  lemma SplitFirst(a: string, s: string)
    requires '/' !in a
    ensures Split(a + "/" + s) == [a] + Split(s)
  {
    var whole := a + "/" + s;
    var k := SlashIndex(whole);
    assert forall i :: 0 <= i < |a| ==> whole[i] == a[i];
    assert whole[|a|] == '/';
    assert k == |a| && whole[..k] == a && whole[k + 1..] == s;
  }

  lemma UnescapeAllCons(part: string, parts: seq<string>)
    ensures UnescapeAll([part] + parts) == [Unescape(part)] + UnescapeAll(parts)
    ensures [part] + [] == [part] && UnescapeAll([]) == []
  {
    assert ([part] + parts)[1..] == parts;
  }

  lemma FormatCons(token: string, tokens: Path)
    ensures FormatPointer([token] + tokens) == "/" + Escape(token) + FormatPointer(tokens)
  {
    assert ([token] + tokens)[1..] == tokens;
  }

  /** One more part in front of the rest of a pointer splits off first. */
  lemma SplitPart(part: string, pointer: string)
    requires '/' !in part && (pointer != "" ==> pointer[0] == '/')
    ensures UnescapeAll(Split(part + pointer))
         == [Unescape(part)] + if pointer == "" then [] else UnescapeAll(Split(pointer[1..]))
  {
    if pointer == "" {
      assert part + pointer == part;
      SplitOne(part);
      UnescapeAllCons(part, []);
    } else {
      assert part + pointer == part + "/" + pointer[1..];
      SplitFirst(part, pointer[1..]);
      UnescapeAllCons(part, Split(pointer[1..]));
    }
  }

  lemma FormatStart(tokens: Path)
    ensures tokens == [] <==> FormatPointer(tokens) == ""
    ensures tokens != [] ==> FormatPointer(tokens)[0] == '/'
    ensures tokens != [] ==> FormatPointer(tokens)[1..] == Escape(tokens[0]) + FormatPointer(tokens[1..])
  {
  }

  lemma {:induction false} SplitFormatted(tokens: Path)
    requires tokens != []
    ensures FormatPointer(tokens) != "" && UnescapeAll(Split(FormatPointer(tokens)[1..])) == tokens
  {
    FormatStart(tokens);
    FormatStart(tokens[1..]);
    UnescapeEscape(tokens[0]);
    SplitPart(Escape(tokens[0]), FormatPointer(tokens[1..]));
    if tokens[1..] != [] {
      SplitFormatted(tokens[1..]);
    }
    assert tokens == [tokens[0]] + tokens[1..];
  }

  /** Reading a formatted pointer gives its tokens back, for every token sequence. */
  lemma ParseFormat(tokens: Path)
    ensures ParsePointer(FormatPointer(tokens)) == Some(tokens)
  {
    if tokens != [] {
      SplitFormatted(tokens);
    }
  }

  lemma FormatInjective(s: Path, t: Path)
    requires FormatPointer(s) == FormatPointer(t)
    ensures s == t
  {
    ParseFormat(s);
    ParseFormat(t);
  }

  lemma FormatFirstPart(part: string, parts: seq<string>)
    requires Escape(Unescape(part)) == part
    ensures FormatPointer(UnescapeAll([part] + parts)) == "/" + part + FormatPointer(UnescapeAll(parts))
  {
    UnescapeAllCons(part, parts);
    FormatCons(Unescape(part), UnescapeAll(parts));
  }

  lemma FormatSplitStep(a: string, r: string)
    requires WellEscaped(a) && '/' !in a
    requires FormatPointer(UnescapeAll(Split(r))) == "/" + r
    ensures FormatPointer(UnescapeAll(Split(a + "/" + r))) == "/" + a + ("/" + r)
  {
    EscapeUnescape(a);
    SplitFirst(a, r);
    FormatFirstPart(a, Split(r));
  }

  lemma FormatSplitLast(a: string)
    requires WellEscaped(a) && '/' !in a
    ensures FormatPointer(UnescapeAll(Split(a))) == "/" + a
  {
    EscapeUnescape(a);
    SplitOne(a);
    FormatFirstPart(a, []);
    assert [a] == [a] + [];
  }

  lemma {:induction false} FormatSplit(s: string)
    requires WellEscaped(s)
    ensures FormatPointer(UnescapeAll(Split(s))) == "/" + s
    decreases |s|
  {
    var k := SlashIndex(s);
    FirstPartWellEscaped(s);
    if k == |s| {
      FormatSplitLast(s);
    } else {
      var a, r := s[..k], s[k + 1..];
      SuffixWellEscaped(s, k + 1);
      FormatSplit(r);
      FormatSplitStep(a, r);
      CutAtSlash(s, k);
    }
  }

  lemma CutAtSlash(s: string, k: nat)
    requires k < |s| && s[k] == '/'
    ensures s == s[..k] + "/" + s[k + 1..]
    ensures "/" + s == "/" + s[..k] + ("/" + s[k + 1..])
  {
    assert s == s[..k] + "/" + s[k + 1..];
    Associate("/", s[..k], "/" + s[k + 1..]);
    Associate(s[..k], "/", s[k + 1..]);
  }

  lemma Associate(a: string, b: string, c: string)
    ensures a + b + c == a + (b + c)
  {
  }

  lemma FirstPartWellEscaped(s: string)
    requires WellEscaped(s)
    ensures WellEscaped(s[..SlashIndex(s)]) && '/' !in s[..SlashIndex(s)]
  {
    var first := s[..SlashIndex(s)];
    forall i | 0 <= i < |first| && first[i] == '~'
      ensures i + 1 < |first| && (first[i + 1] == '0' || first[i + 1] == '1')
    {
      assert s[i] == '~';
    }
  }

  /** Every pointer in the syntax of the standard is the formatting of what it parses to. */
  lemma FormatParse(pointer: string)
    requires WellFormed(pointer)
    ensures ParsePointer(pointer).Some? && FormatPointer(ParsePointer(pointer).value) == pointer
  {
    if pointer != "" {
      var body := pointer[1..];
      SuffixWellEscaped(pointer, 1);
      FormatSplit(body);
      assert pointer == "/" + body;
    }
  }

  /** Exactly the empty string and the strings that start with "/" are accepted. */
  lemma AcceptedPointers(pointer: string)
    ensures ParsePointer(pointer).Some? <==> pointer == "" || pointer[0] == '/'
  {
  }

  /** A tilde that starts no escape is kept: such a part is its own token. */
  lemma {:induction false} StrayTildes(part: string)
    requires forall i :: 0 <= i < |part| - 1 && part[i] == '~' ==> part[i + 1] != '0' && part[i + 1] != '1'
    ensures Unescape(part) == part
  {
    NothingReplaced(part, '~', '1', '/');
    NothingReplaced(part, '~', '0', '~');
  }

  lemma {:induction false} NothingReplaced(s: string, a: char, b: char, r: char)
    requires forall i :: 0 <= i < |s| - 1 && s[i] == a ==> s[i + 1] != b
    ensures ReplacePair(s, a, b, r) == s
  {
    if |s| >= 2 {
      forall i | 0 <= i < |s[1..]| - 1 && s[1..][i] == a
        ensures s[1..][i + 1] != b
      {
        assert s[i + 1] == a;
      }
      NothingReplaced(s[1..], a, b, r);
      assert s == [s[0]] + s[1..];
    }
  }
}
