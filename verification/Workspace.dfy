/**
 Running arbitrary commands on protected workspace files: snapshot what the stage must not
 change, take away what it must not see, run, then put both back.
 */
module Workspace {
  import opened Wrappers
  import opened AgentModels
  import opened AccessPolicy

  /**
   File contents. A receipt is a content like any other: a command may write one, so that
   forged receipts are part of the model.
   */
  datatype Content =
    | Text(text: string)
    | SolverReceipt(solver: Digest<Content>, input: Digest<Content>, candidate: Option<Digest<Content>>, timedOut: bool)
    | CheckerReceipt(checker: Digest<Content>, input: Digest<Content>, solution: Digest<Content>,
                     result: Digest<Content>)

  type Files = map<FileName, Content>

  function Lookup(files: Files, path: FileName): Option<Content> {
    if path in files then Some(files[path]) else None
  }

  // ---- Reference: what a guarded command leaves behind ---------------------

  function ProtectedPaths(rules: seq<Rule>, stage: Stage): set<FileName> {
    set p | p in UnauthorizedWriteTargets(rules, stage)
  }

  function HiddenPaths(rules: seq<Rule>, stage: Stage, files: Files): set<FileName> {
    set p | p in UnreadableFileTargets(rules, stage, files.Keys)
  }

  /** The files a command of this stage gets to see. */
  function Visible(rules: seq<Rule>, stage: Stage, files: Files): Files {
    files - HiddenPaths(rules, stage, files)
  }

  /** Files at guarded paths as they were before, all others as they are after. */
  function Merge(guarded: set<FileName>, before: Files, after: Files): Files {
    map p | p in before.Keys + after.Keys && (if p in guarded then p in before else p in after)
      :: if p in guarded then before[p] else after[p]
  }

  function Guarded(rules: seq<Rule>, stage: Stage, exempt: set<FileName>, files: Files): set<FileName> {
    (ProtectedPaths(rules, stage) - exempt) + HiddenPaths(rules, stage, files)
  }

  /** An arbitrary command: any function of the files it can see. */
  type Command = Files -> Files

  function AfterCommand(rules: seq<Rule>, stage: Stage, exempt: set<FileName>, files: Files, command: Command): Files {
    Merge(Guarded(rules, stage, exempt, files), files, command(Visible(rules, stage, files)))
  }

  /** The command left a differing file at a hidden path, or changed a visible protected one. */
  ghost predicate ViolatesAt(rules: seq<Rule>, stage: Stage, exempt: set<FileName>, files: Files, command: Command,
                             p: FileName)
  {
    var after, hidden := command(Visible(rules, stage, files)), HiddenPaths(rules, stage, files);
    if p in hidden then p in after && Lookup(after, p) != Lookup(files, p)
    else p in ProtectedPaths(rules, stage) - exempt && Lookup(after, p) != Lookup(files, p)
  }

  ghost predicate Violates(rules: seq<Rule>, stage: Stage, exempt: set<FileName>, files: Files, command: Command) {
    exists p :: ViolatesAt(rules, stage, exempt, files, command, p)
  }

  lemma LookupAfter(rules: seq<Rule>, stage: Stage, exempt: set<FileName>, files: Files, command: Command, p: FileName)
    ensures Lookup(AfterCommand(rules, stage, exempt, files, command), p)
         == if p in Guarded(rules, stage, exempt, files) then Lookup(files, p)
            else Lookup(command(Visible(rules, stage, files)), p)
  {
  }

  /** Remark: a command is a function of the visible files, so hidden contents influence nothing else it leaves. */
  lemma HiddenContentsHaveNoInfluence(rules: seq<Rule>, stage: Stage, exempt: set<FileName>, files: Files,
                                      other: Files, command: Command, p: FileName)
    requires HiddenPaths(rules, stage, files) == HiddenPaths(rules, stage, other)
    requires Visible(rules, stage, files) == Visible(rules, stage, other)
    requires p !in HiddenPaths(rules, stage, files)
    ensures Lookup(AfterCommand(rules, stage, exempt, files, command), p)
         == Lookup(AfterCommand(rules, stage, exempt, other, command), p)
  {
    LookupAfter(rules, stage, exempt, files, command, p);
    LookupAfter(rules, stage, exempt, other, command, p);
    var hidden := HiddenPaths(rules, stage, files);
    assert Lookup(files, p) == Lookup(files - hidden, p);
    assert Lookup(other, p) == Lookup(other - hidden, p);
  }

  // ---- The toolset ---------------------------------------------------------

  /** A remembered file, or the fact that it did not exist. */
  datatype Saved = Saved(path: FileName, content: Option<Content>)

  function Paths(saved: seq<Saved>): (r: seq<FileName>)
    ensures |r| == |saved|
    ensures forall i :: 0 <= i < |saved| ==> r[i] == saved[i].path
  {
    seq(|saved|, i requires 0 <= i < |saved| => saved[i].path)
  }

  class WorkspaceFiles {
    const rules: seq<Rule>
    var files: Files

    ghost predicate Valid() {
      DistinctPlaces(rules)
    }

    constructor (rules: seq<Rule>, files: Files)
      requires DistinctPlaces(rules)
      ensures Valid() && this.rules == rules && this.files == files
    {
      this.rules, this.files := rules, files;
    }

    method ProtectedSnapshot(stage: Stage) returns (snapshot: seq<Saved>)
      requires Valid()
      ensures Paths(snapshot) == UnauthorizedWriteTargets(rules, stage)
      ensures forall s :: s in snapshot ==> s.content == Lookup(files, s.path)
    {
      snapshot := [];
      var targets := UnauthorizedWriteTargets(rules, stage);
      for i := 0 to |targets|
        invariant Paths(snapshot) == targets[..i]
        invariant forall s :: s in snapshot ==> s.content == Lookup(files, s.path)
      {
        var target := targets[i];
        if target in files {
          snapshot := snapshot + [Saved(target, Some(files[target]))];
        } else {
          snapshot := snapshot + [Saved(target, None)];
        }
      }
    }

    method HideUnreadableFiles(stage: Stage) returns (hidden: seq<Saved>)
      requires Valid()
      modifies this
      ensures Paths(hidden) == UnreadableFileTargets(rules, stage, old(files).Keys)
      ensures forall s :: s in hidden ==> s.content.Some? && s.content == Lookup(old(files), s.path)
      ensures files == Visible(rules, stage, old(files))
    {
      hidden := [];
      var targets := UnreadableFileTargets(rules, stage, files.Keys);
      TargetsDistinct(rules, stage, files.Keys);
      for i := 0 to |targets|
        invariant Paths(hidden) == targets[..i]
        invariant forall s :: s in hidden ==> s.content.Some? && s.content == Lookup(old(files), s.path)
        invariant files == old(files) - (set p | p in targets[..i])
      {
        var target := targets[i];
        hidden := hidden + [Saved(target, Some(files[target]))];
        files := files - {target};
        assert targets[..i + 1] == targets[..i] + [target];
      }
      assert targets[..|targets|] == targets;
    }

    /** Write every hidden file back; report those a command had replaced by something else. */
    method RestoreHiddenFiles(hidden: seq<Saved>) returns (collisions: seq<FileName>)
      requires NoRepeats(Paths(hidden)) && forall s :: s in hidden ==> s.content.Some?
      modifies this
      ensures forall p :: Lookup(files, p)
                       == if p in Paths(hidden) then Remembered(hidden, p) else Lookup(old(files), p)
      ensures forall p :: p in collisions <==>
                p in Paths(hidden) && p in old(files) && Lookup(old(files), p) != Remembered(hidden, p)
    {
      collisions := [];
      for i := 0 to |hidden|
        invariant forall p :: Lookup(files, p)
                           == if p in Paths(hidden)[..i] then Remembered(hidden, p) else Lookup(old(files), p)
        invariant forall p :: p in collisions <==>
                    p in Paths(hidden)[..i] && p in old(files) && Lookup(old(files), p) != Remembered(hidden, p)
      {
        var target, original := hidden[i].path, hidden[i].content.value;
        RememberedAt(hidden, i);
        assert Paths(hidden)[..i + 1] == Paths(hidden)[..i] + [target];
        assert target !in Paths(hidden)[..i];
        assert Lookup(files, target) == Lookup(old(files), target);
        if target in files && files[target] != original {
          collisions := collisions + [target];
        }
        files := files[target := original];
      }
      assert Paths(hidden)[..|hidden|] == Paths(hidden);
    }

    /** Undo every change to a remembered file; report the changed ones. */
    method RestoreUnauthorizedChanges(before: seq<Saved>) returns (changed: seq<FileName>)
      requires NoRepeats(Paths(before))
      modifies this
      ensures forall p :: Lookup(files, p)
                       == if p in Paths(before) then Remembered(before, p) else Lookup(old(files), p)
      ensures forall p :: p in changed <==>
                p in Paths(before) && Lookup(old(files), p) != Remembered(before, p)
    {
      changed := [];
      for i := 0 to |before|
        invariant forall p :: Lookup(files, p)
                           == if p in Paths(before)[..i] then Remembered(before, p) else Lookup(old(files), p)
        invariant forall p :: p in changed <==>
                    p in Paths(before)[..i] && Lookup(old(files), p) != Remembered(before, p)
      {
        var target, original := before[i].path, before[i].content;
        RememberedAt(before, i);
        assert Paths(before)[..i + 1] == Paths(before)[..i] + [target];
        assert target !in Paths(before)[..i];
        assert Lookup(files, target) == Lookup(old(files), target);
        var current := Lookup(files, target);
        if current != original {
          changed := changed + [target];
          match original {
            case None => files := files - {target};
            case Some(content) => files := files[target := content];
          }
        }
      }
      assert Paths(before)[..|before|] == Paths(before);
    }

    /** Write one file and undo whatever that did to protected ones. */
    method WriteGuarded(stage: Stage, path: FileName, content: Content) returns (changed: seq<FileName>)
      requires Valid()
      modifies this
      ensures files == Merge(ProtectedPaths(rules, stage), old(files), old(files)[path := content])
    {
      TargetsDistinct(rules, stage, files.Keys);
      var snapshot := ProtectedSnapshot(stage);
      ghost var before, protected := files, ProtectedPaths(rules, stage);
      PathsAreMembers(snapshot);
      files := files[path := content];
      ghost var after := files;
      changed := RestoreUnauthorizedChanges(snapshot);
      forall p
        ensures Lookup(files, p) == Lookup(Merge(protected, before, after), p)
      {
        if p in protected {
          RememberedIsLookup(snapshot, protected, before, p);
        }
      }
      SameLookups(files, Merge(protected, before, after));
    }

    /**
     Snapshot, hide, run the command on what is left, then restore. `exempt` names files the
     launched program is the legitimate producer of.
     */
    method RunGuarded(stage: Stage, exempt: set<FileName>, command: Command) returns (violations: seq<FileName>)
      requires Valid()
      modifies this
      ensures files == AfterCommand(rules, stage, exempt, old(files), command)
      ensures forall p :: p in violations <==> ViolatesAt(rules, stage, exempt, old(files), command, p)
    {
      TargetsDistinct(rules, stage, files.Keys);
      var snapshot := ProtectedSnapshot(stage);
      var before := WithoutExempt(snapshot, exempt);
      SnapshotRemembers(rules, stage, exempt, files, snapshot, before);
      var hidden := HideUnreadableFiles(stage);
      files := command(files);
      ghost var after := files;
      var collisions := RestoreHiddenFiles(hidden);
      ghost var shown := files;
      var changed := RestoreUnauthorizedChanges(before);
      violations := collisions + changed;
      ghost var original, protected := old(files), ProtectedPaths(rules, stage) - exempt;
      ghost var concealed := HiddenPaths(rules, stage, original);
      forall p
        ensures Lookup(files, p) == Lookup(AfterCommand(rules, stage, exempt, original, command), p)
        ensures p in violations <==> ViolatesAt(rules, stage, exempt, original, command, p)
      {
        LookupAfter(rules, stage, exempt, original, command, p);
        if p in concealed {
          RememberedIsLookup(hidden, concealed, original, p);
        }
        if p in protected {
          RememberedIsLookup(before, protected, original, p);
        }
      }
      SameLookups(files, AfterCommand(rules, stage, exempt, original, command));
    }
  }

  lemma SameLookups(a: Files, b: Files)
    requires forall p :: Lookup(a, p) == Lookup(b, p)
    ensures a == b
  {
    forall p
      ensures p in a <==> p in b
      ensures p in a ==> a[p] == b[p]
    {
      assert Lookup(a, p) == Lookup(b, p);
    }
  }

  lemma SnapshotRemembers(rules: seq<Rule>, stage: Stage, exempt: set<FileName>, files: Files, snapshot: seq<Saved>,
                          before: seq<Saved>)
    requires DistinctPlaces(rules) && before == WithoutExempt(snapshot, exempt)
    requires Paths(snapshot) == UnauthorizedWriteTargets(rules, stage)
    requires forall s :: s in snapshot ==> s.content == Lookup(files, s.path)
    ensures Remember(before, ProtectedPaths(rules, stage) - exempt, files)
  {
    TargetsDistinct(rules, stage, files.Keys);
    PathsAreMembers(before);
    PathsAreMembers(snapshot);
  }

  lemma PathsAreMembers(saved: seq<Saved>)
    ensures forall p :: p in Paths(saved) <==> exists s :: s in saved && s.path == p
  {
    forall p | p in Paths(saved)
      ensures exists s :: s in saved && s.path == p
    {
      var i :| 0 <= i < |saved| && Paths(saved)[i] == p;
      assert saved[i] in saved;
    }
    forall s | s in saved
      ensures s.path in Paths(saved)
    {
      var i :| 0 <= i < |saved| && saved[i] == s;
      assert Paths(saved)[i] == s.path;
    }
  }

  /** Drop the snapshot entries of exempt files. */
  function WithoutExempt(snapshot: seq<Saved>, exempt: set<FileName>): (r: seq<Saved>)
    ensures forall s :: s in r <==> s in snapshot && s.path !in exempt
    ensures NoRepeats(Paths(snapshot)) ==> NoRepeats(Paths(r))
  {
    if snapshot == [] then []
    else
      var first, rest := snapshot[0], WithoutExempt(snapshot[1..], exempt);
      assert snapshot == [first] + snapshot[1..];
      assert Paths(snapshot[1..]) == Paths(snapshot)[1..];
      if first.path in exempt then rest
      else
        DroppedDistinct(snapshot, first, rest);
        [first] + rest
  }

  lemma DroppedDistinct(snapshot: seq<Saved>, first: Saved, rest: seq<Saved>)
    requires snapshot != [] && first == snapshot[0] && forall s :: s in rest ==> s in snapshot[1..]
    ensures NoRepeats(Paths(snapshot)) && NoRepeats(Paths(rest)) ==> NoRepeats(Paths([first] + rest))
  {
    if NoRepeats(Paths(snapshot)) && NoRepeats(Paths(rest)) {
      forall k | 0 <= k < |rest|
        ensures rest[k].path != first.path
      {
        assert rest[k] in snapshot[1..];
        var m :| 0 <= m < |snapshot[1..]| && snapshot[1..][m] == rest[k];
        assert Paths(snapshot)[0] != Paths(snapshot)[m + 1];
      }
      assert first.path !in Paths(rest);
      PrependDistinct(first.path, Paths(rest));
      assert Paths([first] + rest) == [first.path] + Paths(rest);
    }
  }

  /** Saved entries of `paths` that hold what `files` held. */
  ghost predicate Remember(saved: seq<Saved>, paths: set<FileName>, files: Files) {
    && NoRepeats(Paths(saved))
    && (forall p :: p in Paths(saved) <==> p in paths)
    && forall s :: s in saved ==> s.content == Lookup(files, s.path)
  }

  lemma RememberedIsLookup(saved: seq<Saved>, paths: set<FileName>, files: Files, p: FileName)
    requires Remember(saved, paths, files) && p in paths
    ensures Remembered(saved, p) == Lookup(files, p)
  {
    var i :| 0 <= i < |saved| && Paths(saved)[i] == p;
    RememberedAt(saved, i);
    assert saved[i] in saved;
  }

  /** What was remembered about a path. */
  ghost function Remembered(saved: seq<Saved>, path: FileName): Option<Content> {
    if saved == [] then None
    else if saved[0].path == path then saved[0].content
    else Remembered(saved[1..], path)
  }

  lemma {:induction false} RememberedAt(saved: seq<Saved>, i: nat)
    requires NoRepeats(Paths(saved)) && i < |saved|
    ensures Remembered(saved, saved[i].path) == saved[i].content
  {
    if i > 0 {
      assert Paths(saved)[0] != Paths(saved)[i];
      var rest := saved[1..];
      assert Paths(rest) == Paths(saved)[1..];
      RememberedAt(rest, i - 1);
    }
  }
}
