/** Numbered names: the base of a file name, a counter from 2 on, and its suffix. */
module RevisionNames {
  import opened Wrappers
  import opened Decimal

  /** Name number k of a file: the name itself, then `base-2.suffix`, `base-3.suffix`, ... */
  function Numbered(base: string, suffix: string, k: nat): string {
    if k <= 1 then base + suffix else base + "-" + ToText(k) + suffix
  }

  /** Different numbers give different names. */
  lemma NumberedInjective(base: string, suffix: string, j: nat, k: nat)
    requires 1 <= j && 1 <= k && Numbered(base, suffix, j) == Numbered(base, suffix, k)
    ensures j == k
  {
    var lead := |base| + 1;
    if j == 1 || k == 1 {
      assert |base + suffix| == |base| + |suffix|;
    } else {
      var left, right := base + "-" + ToText(j) + suffix, base + "-" + ToText(k) + suffix;
      assert |left| == lead + |ToText(j)| + |suffix| && |right| == lead + |ToText(k)| + |suffix|;
      assert ToText(j) == left[lead..|left| - |suffix|];
      assert ToText(k) == right[lead..|right| - |suffix|];
      TextInjective(j, k);
    }
  }

  /** The first n numbered names. */
  ghost function Names(base: string, suffix: string, n: nat): set<string> {
    set k: nat | 1 <= k <= n :: Numbered(base, suffix, k)
  }

  lemma {:induction false} NamesAreMany(base: string, suffix: string, n: nat)
    ensures |Names(base, suffix, n)| == n
  {
    if n > 0 {
      NamesAreMany(base, suffix, n - 1);
      var last := Numbered(base, suffix, n);
      if last in Names(base, suffix, n - 1) {
        var k: nat :| 1 <= k <= n - 1 && Numbered(base, suffix, k) == last;
        NumberedInjective(base, suffix, k, n);
      }
      assert Names(base, suffix, n) == Names(base, suffix, n - 1) + {last};
    } else {
      assert Names(base, suffix, 0) == {};
    }
  }

  ghost predicate AllTaken(base: string, suffix: string, taken: set<string>, n: nat) {
    forall k: nat :: 1 <= k <= n ==> Numbered(base, suffix, k) in taken
  }

  /** Pigeonhole: finitely many taken names cannot block more numbers than they are. */
  lemma TakenBoundsTries(base: string, suffix: string, taken: set<string>, n: nat)
    requires AllTaken(base, suffix, taken, n)
    ensures n <= |taken|
  {
    NamesAreMany(base, suffix, n);
    SubsetIsSmaller(Names(base, suffix, n), taken);
  }

  /** k is the number of the first name that is not taken. */
  ghost predicate FirstFree(base: string, suffix: string, taken: set<string>, k: nat) {
    1 <= k && Numbered(base, suffix, k) !in taken && AllTaken(base, suffix, taken, k - 1)
  }

  // ---- Splitting a file name -----------------------------------------------

  /** Position of the last '.' in the name. */
  function LastDot(name: string): (r: Option<nat>)
    ensures r.Some? ==> r.value < |name| && name[r.value] == '.'
  {
    if name == [] then None
    else if name[|name| - 1] == '.' then Some(|name| - 1)
    else LastDot(name[..|name| - 1])
  }

  /** Length of the name before its one extension; a leading or trailing dot starts none. */
  function StemLength(name: string): (n: nat)
    ensures n <= |name|
  {
    match LastDot(name)
    case Some(i) => if 0 < i < |name| - 1 then i else |name|
    case None => |name|
  }

  function LeadingDots(name: string): (n: nat)
    ensures n <= |name|
  {
    if name == [] || name[0] != '.' then 0 else 1 + LeadingDots(name[1..])
  }

  function BeforeFirstDot(name: string): (n: nat)
    ensures n <= |name|
  {
    if name == [] || name[0] == '.' then 0 else 1 + BeforeFirstDot(name[1..])
  }

  /** Length of the name before all its extensions; a trailing dot means that there are none. */
  function BaseLength(name: string): (n: nat)
    ensures n <= |name|
  {
    if name != [] && name[|name| - 1] == '.' then |name|
    else
      var dots := LeadingDots(name);
      dots + BeforeFirstDot(name[dots..])
  }
}

/** Which part of a file name a number goes behind, said by the parts of the name. */
module NameParts {
  import opened Wrappers
  import opened RevisionNames

  predicate AllDots(s: string) {
    forall i :: 0 <= i < |s| ==> s[i] == '.'
  }

  /** All extensions of a name: nothing, or from a '.' on and not up to a '.'. */
  predicate IsSuffix(s: string) {
    s == "" || (s[0] == '.' && s[|s| - 1] != '.')
  }

  predicate IsStem(s: string) {
    s != "" && '.' !in s
  }

  lemma {:induction false} DotsLead(dots: string, rest: string)
    requires AllDots(dots) && (rest == "" || rest[0] != '.')
    ensures LeadingDots(dots + rest) == |dots|
  {
    if dots == "" {
      assert dots + rest == rest;
    } else {
      DotsLead(dots[1..], rest);
      assert (dots + rest)[1..] == dots[1..] + rest;
    }
  }

  lemma {:induction false} StemLeads(stem: string, suffix: string)
    requires '.' !in stem && (suffix == "" || suffix[0] == '.')
    ensures BeforeFirstDot(stem + suffix) == |stem|
  {
    if stem == "" {
      assert stem + suffix == suffix;
    } else {
      assert stem[0] in stem;
      StemLeads(stem[1..], suffix);
      assert (stem + suffix)[1..] == stem[1..] + suffix;
    }
  }

  /** Leading dots belong to the base, and every extension to the suffix. */
  lemma BaseOfParts(dots: string, stem: string, suffix: string)
    requires AllDots(dots) && IsStem(stem) && IsSuffix(suffix)
    ensures var name := dots + stem + suffix;
            BaseLength(name) == |dots + stem| && name[..BaseLength(name)] == dots + stem
            && name[BaseLength(name)..] == suffix
  {
    var name, rest := dots + stem + suffix, stem + suffix;
    assert stem[0] in stem && stem[|stem| - 1] in stem;
    assert name == dots + rest;
    assert name[|name| - 1] != '.' by {
      assert name[|name| - 1] == if suffix == "" then stem[|stem| - 1] else suffix[|suffix| - 1];
    }
    DotsLead(dots, rest);
    StemLeads(stem, suffix);
    assert name[|dots|..] == rest;
  }

  /** A name that ends in a dot has no extension. */
  lemma TrailingDotHasNoSuffix(name: string)
    requires name != "" && name[|name| - 1] == '.'
    ensures name[..BaseLength(name)] == name && name[BaseLength(name)..] == ""
  {
  }

  lemma {:induction false} SkipDots(name: string) returns (dots: string, rest: string)
    ensures name == dots + rest && AllDots(dots) && (rest == "" || rest[0] != '.')
  {
    if name == "" || name[0] != '.' {
      dots, rest := "", name;
    } else {
      dots, rest := SkipDots(name[1..]);
      dots := "." + dots;
      assert name == ['.'] + name[1..];
    }
  }

  lemma {:induction false} SplitAtDot(name: string) returns (stem: string, suffix: string)
    ensures name == stem + suffix && '.' !in stem && (suffix == "" || suffix[0] == '.')
  {
    if name == "" || name[0] == '.' {
      stem, suffix := "", name;
    } else {
      stem, suffix := SplitAtDot(name[1..]);
      stem := [name[0]] + stem;
      assert name == [name[0]] + name[1..];
    }
  }

  /** Every name that does not end in a dot consists of such parts. */
  lemma NameHasParts(name: string) returns (dots: string, stem: string, suffix: string)
    requires name != "" && name[|name| - 1] != '.'
    ensures name == dots + stem + suffix && AllDots(dots) && IsStem(stem) && IsSuffix(suffix)
  {
    var rest: string;
    dots, rest := SkipDots(name);
    assert rest == "" ==> name == dots;
    stem, suffix := SplitAtDot(rest);
    assert stem == "" ==> rest == suffix;
    assert suffix != "" ==> suffix[|suffix| - 1] == name[|name| - 1];
  }

  // ---- One extension -------------------------------------------------------

  lemma {:induction false} LastDotOf(stem: string, extension: string)
    requires '.' !in extension
    ensures LastDot(stem + "." + extension) == Some(|stem|)
  {
    var name := stem + "." + extension;
    if extension != "" {
      var m := |extension| - 1;
      assert extension[m] in extension && '.' !in extension[..m];
      LastDotOf(stem, extension[..m]);
      assert name[..|name| - 1] == stem + "." + extension[..m];
    }
  }

  lemma {:induction false} NoLastDot(name: string)
    requires '.' !in name
    ensures LastDot(name) == None
  {
    if name != "" {
      assert name[|name| - 1] in name;
      NoLastDot(name[..|name| - 1]);
    }
  }

  /** Only the last extension counts, and it is none when it is empty or the whole name. */
  lemma StemOfParts(stem: string, extension: string)
    requires '.' !in extension
    ensures var name := stem + "." + extension;
            StemLength(name) == if stem != "" && extension != "" then |stem| else |name|
  {
    LastDotOf(stem, extension);
  }

  lemma StemWithoutDot(name: string)
    requires '.' !in name
    ensures StemLength(name) == |name|
  {
    NoLastDot(name);
  }
}

/** Storing produced artifacts under the first free revision of their name. */
module ArtifactRevisions {
  import opened Wrappers
  import opened ArtifactIndexes
  import opened Artifacts
  import opened Decimal
  import opened NameParts
  import opened RevisionNames

  /** An artifact draft: its directory with a trailing '/' unless empty, its file name and its text. */
  datatype Draft = Draft(parent: string, name: string, content: Bytes, info: Info)

  function Base(draft: Draft): string {
    draft.parent + draft.name[..BaseLength(draft.name)]
  }

  function Suffix(draft: Draft): string {
    draft.name[BaseLength(draft.name)..]
  }

  function RevisionPath(draft: Draft, revision: nat): string {
    Numbered(Base(draft), Suffix(draft), revision)
  }

  /** The first revision is the draft's own path. */
  lemma FirstRevisionIsPath(draft: Draft)
    ensures RevisionPath(draft, 1) == draft.parent + draft.name
  {
    assert draft.name == draft.name[..BaseLength(draft.name)] + Suffix(draft);
  }

  /** The number goes behind the name and before all its extensions; leading dots start none. */
  lemma RevisionNumberGoesBeforeExtensions(parent: string, dots: string, stem: string, suffix: string, content: Bytes,
                                           info: Info, k: nat)
    requires AllDots(dots) && IsStem(stem) && IsSuffix(suffix)
    ensures var path := RevisionPath(Draft(parent, dots + stem + suffix, content, info), k);
            if k >= 2 then path == parent + dots + stem + "-" + ToText(k) + suffix
            else path == parent + dots + stem + suffix
  {
    BaseOfParts(dots, stem, suffix);
    assert parent + (dots + stem) == parent + dots + stem;
  }

  /** Behind a final dot the number goes to the end. */
  lemma RevisionNumberAfterFinalDot(parent: string, name: string, content: Bytes, info: Info, k: nat)
    requires k >= 2 && name != "" && name[|name| - 1] == '.'
    ensures RevisionPath(Draft(parent, name, content, info), k) == parent + name + "-" + ToText(k)
  {
    TrailingDotHasNoSuffix(name);
  }

  ghost function Taken(s: Store): set<string> {
    s.files.Keys + s.directories + (set e | e in s.index :: e.path)
  }

  lemma TakenIsOccupied(s: Store, path: string)
    ensures path in Taken(s) <==> Occupied(s, path)
  {
    LookupAbsent(s.index, path);
    if e :| e in s.index && e.path == path {
      var i :| 0 <= i < |s.index| && s.index[i] == e;
    }
  }

  /** Only the draft's own path can be refused: a later revision is never the index file. */
  lemma RevisionsAreValid(draft: Draft, revision: nat)
    requires revision >= 2
    ensures RevisionPath(draft, revision) != "" && RevisionPath(draft, revision) != INDEX_NAME
  {
    var path := RevisionPath(draft, revision);
    assert path[|Base(draft)|] == '-';
    assert forall i :: 0 <= i < |INDEX_NAME| ==> INDEX_NAME[i] != '-';
  }

  /** What storing a draft amounts to: one write at its first free revision. */
  function RequestFor(draft: Draft, revision: nat, freshId: string, faults: Faults): Request {
    Request(RevisionPath(draft, revision), draft.content, draft.info, freshId, false, faults)
  }

  /** Tries revision after revision until one is not in conflict, and ends by pigeonhole. */
  method StoreArtifact(store: ArtifactStore, draft: Draft, freshId: string, faults: Faults)
    returns (outcome: Outcome, revision: nat)
    modifies store`files, store`index
    ensures revision >= 1
    ensures (store.View(), outcome) == Write(old(store.View()), RequestFor(draft, revision, freshId, faults))
    ensures !outcome.Conflict?
    ensures outcome.InvalidPath? ==> revision == 1
    ensures !outcome.InvalidPath? ==> FirstFree(Base(draft), Suffix(draft), Taken(old(store.View())), revision)
  {
    ghost var before := store.View();
    ghost var base, suffix := Base(draft), Suffix(draft);
    revision := 1;
    outcome := store.Put(RequestFor(draft, 1, freshId, faults));
    TakenIsOccupied(before, RevisionPath(draft, 1));
    while outcome.Conflict?
      invariant revision >= 1
      invariant (store.View(), outcome) == Write(before, RequestFor(draft, revision, freshId, faults))
      invariant AllTaken(base, suffix, Taken(before), revision - 1)
      invariant outcome.Conflict? <==> Admissible(draft, revision) && RevisionPath(draft, revision) in Taken(before)
      invariant revision > 1 ==> Admissible(draft, revision)
      decreases |Taken(before)| - revision
    {
      TakenBoundsTries(base, suffix, Taken(before), revision);
      assert store.View() == before;
      revision := revision + 1;
      RevisionsAreValid(draft, revision);
      outcome := store.Put(RequestFor(draft, revision, freshId, faults));
      TakenIsOccupied(before, RevisionPath(draft, revision));
    }
  }

  /** The draft's own path is used exactly when it is free, and what is used is free. */
  lemma FreePathIsKept(draft: Draft, taken: set<string>, revision: nat)
    requires FirstFree(Base(draft), Suffix(draft), taken, revision)
    ensures RevisionPath(draft, revision) !in taken
    ensures draft.parent + draft.name !in taken <==> RevisionPath(draft, revision) == draft.parent + draft.name
  {
    FirstRevisionIsPath(draft);
    assert revision > 1 ==> Numbered(Base(draft), Suffix(draft), 1) in taken;
  }

  predicate Admissible(draft: Draft, revision: nat) {
    RevisionPath(draft, revision) != "" && RevisionPath(draft, revision) != INDEX_NAME
  }

  /** A stored draft gets a fresh path, and nothing that was there before changes. */
  lemma EarlierArtifactsStay(s: Store, draft: Draft, revision: nat, freshId: string, faults: Faults, path: string)
    requires WellShaped(s) && Unused(s, freshId) && path in s.files
    requires FirstFree(Base(draft), Suffix(draft), Taken(s), revision)
    ensures path != RevisionPath(draft, revision)
    ensures var s' := Write(s, RequestFor(draft, revision, freshId, faults)).0;
            && ContentAt(s'.files, path) == Some(s.files[path])
            && Lookup(s'.index, path) == Lookup(s.index, path)
  {
    assert path in Taken(s);
    OthersUntouched(s, RequestFor(draft, revision, freshId, faults), path);
  }
}

/** Staging uploaded inputs under free names. */
module InputWorkspaces {
  import opened Wrappers
  import opened Decimal
  import opened NameParts
  import opened RevisionNames

  /** Length of the path up to and including its last '/'. */
  function LastSlash(path: string): (n: nat)
    ensures n <= |path| && '/' !in path[n..]
    ensures n > 0 ==> path[n - 1] == '/'
  {
    if path == "" || path[|path| - 1] == '/' then |path|
    else
      var n := LastSlash(path[..|path| - 1]);
      assert path[n..] == path[..|path| - 1][n..] + [path[|path| - 1]];
      n
  }

  /** The final component of a path; empty and "." components do not count. */
  function FinalName(path: string): (name: string)
    ensures '/' !in name && name != "."
    decreases |path|
  {
    var n := LastSlash(path);
    var last := path[n..];
    if last != "" && last != "." then last
    else if n == 0 then ""
    else FinalName(path[..n - 1])
  }

  function SafeName(filename: string): (name: string)
    ensures '/' !in name && name !in {"", "."}
  {
    if FinalName(filename) == "" then "uploaded" else FinalName(filename)
  }

  class InputWorkspace {
    var files: map<string, Bytes>   // directly in the data directory

    constructor ()
      ensures files == map[]
    {
      files := map[];
    }

    /** The parent directory exists under the name "..". */
    function Existing(): set<string>
      reads this
    {
      files.Keys + {".."}
    }

    method AvailableDestination(name: string) returns (destination: string)
      ensures FirstFreeName(name, Existing(), destination)
    {
      var stem := StemLength(name);
      ghost var base, suffix := name[..stem], name[stem..];
      assert base + suffix == name;
      if name !in Existing() {
        assert FreeNumber(name, Existing(), name, 1);
        return name;
      }
      var index := 2;
      destination := name[..stem] + "-" + ToText(index) + name[stem..];
      while destination in Existing()
        invariant index >= 2 && destination == Numbered(base, suffix, index)
        invariant AllTaken(base, suffix, Existing(), index - 1)
        decreases |Existing()| - index
      {
        TakenBoundsTries(base, suffix, Existing(), index);
        index := index + 1;
        destination := name[..stem] + "-" + ToText(index) + name[stem..];
      }
      assert FreeNumber(name, Existing(), destination, index);
    }

    /** Stores an upload under the first free variant of its name, without touching any earlier file. */
    method AddBytes(filename: string, content: Bytes) returns (destination: string)
      modifies this
      ensures FirstFreeName(SafeName(filename), old(Existing()), destination)
      ensures files == old(files)[destination := content]
    {
      destination := AvailableDestination(SafeName(filename));
      files := files[destination := content];
    }
  }

  ghost predicate FreeNumber(name: string, taken: set<string>, destination: string, number: nat) {
    var base, suffix := name[..StemLength(name)], name[StemLength(name)..];
    FirstFree(base, suffix, taken, number) && destination == Numbered(base, suffix, number)
  }

  /** The first name that is not taken among the name itself and its numbered variants. */
  ghost predicate FirstFreeName(name: string, taken: set<string>, destination: string) {
    exists number: nat :: FreeNumber(name, taken, destination, number)
  }

  /** An upload's number goes before its last extension; it is the first one that is free. */
  lemma UploadNumberGoesBeforeExtension(stem: string, extension: string, taken: set<string>, destination: string)
    returns (k: nat)
    requires stem != "" && extension != "" && '.' !in extension
    requires FirstFreeName(stem + "." + extension, taken, destination)
    ensures k >= 1 && destination !in taken && (k > 1 ==> stem + "." + extension in taken)
    ensures destination == if k == 1 then stem + "." + extension else stem + "-" + ToText(k) + "." + extension
    ensures forall j: nat :: 2 <= j < k ==> stem + "-" + ToText(j) + "." + extension in taken
  {
    var name := stem + "." + extension;
    StemOfParts(stem, extension);
    k :| FreeNumber(name, taken, destination, k);
    NumberedParts(stem, extension, 1);
    NumberedParts(stem, extension, k);
    assert name[..|stem|] == stem && name[|stem|..] == "." + extension;
    forall j: nat | 1 <= j < k
      ensures Numbered(stem, "." + extension, j) in taken
    {
    }
    forall j: nat | 2 <= j < k
      ensures stem + "-" + ToText(j) + "." + extension in taken
    {
      NumberedParts(stem, extension, j);
    }
  }

  lemma NumberedParts(stem: string, extension: string, k: nat)
    ensures Numbered(stem, "." + extension, k)
         == if k <= 1 then stem + "." + extension else stem + "-" + ToText(k) + "." + extension
  {
    assert stem + ("." + extension) == stem + "." + extension;
    assert stem + "-" + ToText(k) + ("." + extension) == stem + "-" + ToText(k) + "." + extension;
  }

  // ---- The name of an upload -----------------------------------------------

  lemma {:induction false} LastSlashOf(parent: string, name: string)
    requires '/' !in name
    ensures LastSlash(parent + "/" + name) == |parent| + 1 && LastSlash(name) == 0
  {
    var path := parent + "/" + name;
    if name != "" {
      var m := |name| - 1;
      assert name[m] in name && '/' !in name[..m];
      LastSlashOf(parent, name[..m]);
      assert path[..|path| - 1] == parent + "/" + name[..m];
    }
  }

  /** The final component is what follows the last '/'. */
  lemma FinalNameOf(parent: string, name: string)
    requires '/' !in name && name !in {"", "."}
    ensures FinalName(parent + "/" + name) == name && FinalName(name) == name
    ensures SafeName(parent + "/" + name) == name && SafeName(name) == name
  {
    LastSlashOf(parent, name);
    assert (parent + "/" + name)[|parent| + 1..] == name && name[0..] == name;
  }

  /** A trailing '/' or "/." does not count, and a path of nothing else has no name. */
  lemma EmptyComponentsIgnored(path: string)
    ensures FinalName(path + "/") == FinalName(path) && FinalName(path + "/.") == FinalName(path)
    ensures FinalName("") == "" && FinalName(".") == "" && SafeName("") == "uploaded" && SafeName(".") == "uploaded"
  {
    LastSlashOf(path, "");
    LastSlashOf(path, ".");
    assert path + "/" + "" == path + "/" && path + "/" + "." == path + "/.";
    assert (path + "/")[|path| + 1..] == "" && (path + "/.")[|path| + 1..] == ".";
    assert (path + "/")[..|path|] == path && (path + "/.")[..|path|] == path;
  }

  /** A name that is not in use is kept, and an upload never lands on an existing file. */
  lemma FreeNameIsKept(taken: set<string>, name: string, destination: string)
    requires FirstFreeName(name, taken, destination)
    ensures destination !in taken && (name !in taken <==> destination == name)
  {
    var base, suffix := name[..StemLength(name)], name[StemLength(name)..];
    var number: nat :| FreeNumber(name, taken, destination, number);
    assert Numbered(base, suffix, 1) == name;
    assert number > 1 ==> Numbered(base, suffix, 1) in taken;
  }

  lemma {:induction false} TextHasNoSlash(n: nat)
    ensures '/' !in ToText(n)
  {
    DigitRoundTrip(n % 10);
    assert DigitValue('/') == None;
    if n >= 10 {
      TextHasNoSlash(n / 10);
    }
  }

  /** Whatever the upload is called, it is stored directly in the data directory. */
  lemma UploadStaysInside(filename: string, taken: set<string>, destination: string)
    requires ".." in taken && FirstFreeName(SafeName(filename), taken, destination)
    ensures '/' !in destination && destination !in {"", ".", ".."}
  {
    var name := SafeName(filename);
    var base, suffix := name[..StemLength(name)], name[StemLength(name)..];
    var number: nat :| FreeNumber(name, taken, destination, number);
    assert base + suffix == name;
    if number > 1 {
      TextHasNoSlash(number);
      assert destination[|base|] == '-';
    }
  }
}
