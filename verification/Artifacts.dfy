/** Artifact storage: a file per path and the index that describes it, with rollback. */
module Artifacts {
  import opened Wrappers
  import opened ArtifactIndexes

  const INDEX_NAME := ".index.json"

  /** Where an atomic write raises: before the file is replaced, or in the directory sync after it. */
  datatype Fault = NoFault | FailsBefore | FailsAfter

  /** Faults of writing the content, writing the index and rolling the content back. */
  datatype Faults = Faults(content: Fault, index: Fault, rollback: Fault)

  datatype Store = Store(files: map<string, Bytes>, directories: set<string>, index: seq<Metadata>)

  /** `freshId` is the identifier generated for a path that has none. */
  datatype Request = Request(path: string, content: Bytes, info: Info, freshId: string, overwrite: bool, faults: Faults)

  datatype Outcome = Written(metadata: Metadata) | Conflict | InvalidPath | StorageError

  function AfterReplace(files: map<string, Bytes>, path: string, content: Bytes, fault: Fault): map<string, Bytes> {
    if fault.FailsBefore? then files else files[path := content]
  }

  /** Put a path back to what it held before; a failed removal or rewrite leaves it alone. */
  function Restored(files: map<string, Bytes>, path: string, previous: Option<Bytes>, fault: Fault): map<string, Bytes> {
    match previous
    case None => if fault.FailsBefore? then files else files - {path}
    case Some(content) => AfterReplace(files, path, content, fault)
  }

  function ContentAt(files: map<string, Bytes>, path: string): Option<Bytes> {
    if path in files then Some(files[path]) else None
  }

  predicate Occupied(s: Store, path: string) {
    path in s.files || path in s.directories || Lookup(s.index, path).Some?
  }

  function MetadataFor(s: Store, r: Request): Metadata {
    var existing := Lookup(s.index, r.path);
    Metadata(if existing.Some? then existing.value.id else r.freshId, r.path, |r.content|, Sha256(r.content), r.info)
  }

  /** One write to the store. */
  function Write(s: Store, r: Request): (Store, Outcome) {
    if r.path == "" || r.path == INDEX_NAME then (s, InvalidPath)
    else if Occupied(s, r.path) && (!r.overwrite || r.path in s.directories) then (s, Conflict)
    else
      var metadata := MetadataFor(s, r);
      var files := AfterReplace(s.files, r.path, r.content, r.faults.content);
      if !r.faults.content.NoFault? then (s.(files := files), StorageError)
      else if r.faults.index.NoFault?
      then (s.(files := files, index := Updated(s.index, metadata)), Written(metadata))
      else
        var index := if r.faults.index.FailsAfter? then Updated(s.index, metadata) else s.index;
        var restored := Restored(files, r.path, ContentAt(s.files, r.path), r.faults.rollback);
        (s.(files := restored, index := index), StorageError)
  }

  // ---- What the store keeps ------------------------------------------------

  /** The shape of the index alone. */
  predicate WellShaped(s: Store) {
    StrictlySorted(s.index) && DistinctIds(s.index)
  }

  predicate Describes(entry: Option<Metadata>, content: Option<Bytes>) {
    entry.Some? ==>
      content.Some? && entry.value.size == |content.value| && entry.value.digest == Sha256(content.value)
  }

  /** What the index says of a path is what the file holds. */
  predicate AgreesAt(s: Store, path: string) {
    Describes(Lookup(s.index, path), ContentAt(s.files, path))
  }

  ghost predicate Consistent(s: Store) {
    WellShaped(s) && forall path :: AgreesAt(s, path)
  }

  ghost predicate Unused(s: Store, id: string) {
    forall e :: e in s.index ==> e.id != id
  }

  /** Consistency, entry by entry. */
  lemma EntriesAgree(s: Store, i: nat)
    requires Consistent(s) && i < |s.index|
    ensures s.index[i].path in s.files
    ensures s.index[i].size == |s.files[s.index[i].path]| && s.index[i].digest == Sha256(s.files[s.index[i].path])
  {
    LookupAt(s.index, i);
    assert AgreesAt(s, s.index[i].path);
  }

  /** Order, unique paths and unique ids survive every write, whatever faults strike. */
  lemma WriteKeepsShape(s: Store, r: Request)
    requires WellShaped(s) && Unused(s, r.freshId)
    ensures WellShaped(Write(s, r).0)
  {
    UpdatedKeeps(s.index, MetadataFor(s, r));
  }

  /** The write reaches the disk: its path is valid and free, or may be replaced. */
  predicate Admitted(s: Store, r: Request) {
    && r.path != "" && r.path != INDEX_NAME
    && (!Occupied(s, r.path) || (r.overwrite && r.path !in s.directories))
  }

  /** The new content is what the file holds afterwards. */
  predicate ContentLands(faults: Faults) {
    match faults.content
    case FailsBefore => false
    case FailsAfter => true
    case NoFault => faults.index.NoFault? || faults.rollback.FailsBefore?
  }

  /** The new entry is in the index afterwards. */
  predicate EntryLands(faults: Faults) {
    faults.content.NoFault? && !faults.index.FailsBefore?
  }

  lemma IndexAfter(s: Store, r: Request)
    ensures Write(s, r).0.index
         == if Admitted(s, r) && EntryLands(r.faults) then Updated(s.index, MetadataFor(s, r)) else s.index
  {
  }

  lemma FilesAfter(s: Store, r: Request, path: string)
    ensures ContentAt(Write(s, r).0.files, path)
         == if path == r.path && Admitted(s, r) && ContentLands(r.faults) then Some(r.content)
            else ContentAt(s.files, path)
  {
  }

  /** A write touches the file and the entry of one path only. */
  lemma OthersUntouched(s: Store, r: Request, other: string)
    requires WellShaped(s) && Unused(s, r.freshId) && other != r.path
    ensures ContentAt(Write(s, r).0.files, other) == ContentAt(s.files, other)
    ensures Lookup(Write(s, r).0.index, other) == Lookup(s.index, other)
  {
    UpdatedKeeps(s.index, MetadataFor(s, r));
    FilesAfter(s, r, other);
    IndexAfter(s, r);
    assert Lookup(Updated(s.index, MetadataFor(s, r)), other) == Lookup(s.index, other);
  }

  /**
   Index and content agree after a write exactly when both or neither of them landed, or the
   content was already there, or the content landed on a path that has no entry.
  */
  lemma WriteKeepsAgreement(s: Store, r: Request)
    requires Consistent(s) && Unused(s, r.freshId)
    ensures Consistent(Write(s, r).0)
       <==> || !Admitted(s, r)
            || EntryLands(r.faults) == ContentLands(r.faults)
            || ContentAt(s.files, r.path) == Some(r.content)
            || (ContentLands(r.faults) && Lookup(s.index, r.path) == None)
  {
    var s' := Write(s, r).0;
    WriteKeepsShape(s, r);
    UpdatedKeeps(s.index, MetadataFor(s, r));
    IndexAfter(s, r);
    FilesAfter(s, r, r.path);
    assert AgreesAt(s, r.path);
    forall other | other != r.path
      ensures AgreesAt(s', other)
    {
      assert AgreesAt(s, other);
      OthersUntouched(s, r, other);
    }
    assert Consistent(s') <==> AgreesAt(s', r.path);
  }

  /** It does happen: overwriting an indexed file fails in the directory sync, and its entry is out of date. */
  lemma OverwriteLosesAgreement(path: string, older: Bytes, newer: Bytes, info: Info, id: string)
    requires path != "" && path != INDEX_NAME && older != newer
    ensures var s := Store(map[path := older], {}, [Metadata(id, path, |older|, Sha256(older), info)]);
            var r := Request(path, newer, info, id + "x", true, Faults(FailsAfter, NoFault, NoFault));
            Consistent(s) && Unused(s, r.freshId) && !Consistent(Write(s, r).0)
  {
    var s := Store(map[path := older], {}, [Metadata(id, path, |older|, Sha256(older), info)]);
    var r := Request(path, newer, info, id + "x", true, Faults(FailsAfter, NoFault, NoFault));
    assert s.index[1..] == [] && |r.freshId| == |id| + 1;
    forall other
      ensures AgreesAt(s, other)
    {
      assert Lookup(s.index, other) == if other == path then Some(s.index[0]) else None;
    }
    WriteKeepsAgreement(s, r);
  }

  /** A write that raises, raises before it replaced anything, and the rollback succeeds. */
  predicate CleanFaults(faults: Faults) {
    !faults.content.FailsAfter? && !faults.index.FailsAfter? && faults.rollback.NoFault?
  }

  /** Remark: under clean faults a write that is not reported as written never happened. */
  lemma RolledBack(s: Store, r: Request)
    requires CleanFaults(r.faults) && !Write(s, r).1.Written?
    ensures Write(s, r).0 == s
  {
    assert Write(s, r).0.files == s.files;
  }

  /** A written artifact is stored and described; every other path keeps its content and its entry. */
  lemma WrittenIsStored(s: Store, r: Request)
    requires Consistent(s) && Unused(s, r.freshId) && Write(s, r).1.Written?
    ensures var (s', outcome) := Write(s, r);
            && Consistent(s')
            && ContentAt(s'.files, r.path) == Some(r.content)
            && Lookup(s'.index, r.path) == Some(outcome.metadata)
            && outcome.metadata.digest == Sha256(r.content) && outcome.metadata.size == |r.content|
            && (Lookup(s.index, r.path).Some? ==> r.overwrite && outcome.metadata.id == Lookup(s.index, r.path).value.id)
            && forall other :: other != r.path ==>
                 ContentAt(s'.files, other) == ContentAt(s.files, other)
                 && Lookup(s'.index, other) == Lookup(s.index, other)
  {
    WriteKeepsAgreement(s, r);
    UpdatedKeeps(s.index, MetadataFor(s, r));
    forall other | other != r.path
      ensures ContentAt(Write(s, r).0.files, other) == ContentAt(s.files, other)
      ensures Lookup(Write(s, r).0.index, other) == Lookup(s.index, other)
    {
      OthersUntouched(s, r, other);
    }
  }

  /** When a write is refused, fails or succeeds, and what a written artifact's entry says. */
  lemma WriteOutcomes(s: Store, r: Request)
    ensures var outcome := Write(s, r).1;
            var valid := r.path != "" && r.path != ".index.json";
            var taken := r.path in s.files || r.path in s.directories || exists e :: e in s.index && e.path == r.path;
            var admitted := valid && (taken ==> r.overwrite && r.path !in s.directories);
            && (outcome.InvalidPath? <==> !valid)
            && (outcome.Conflict? <==> valid && !admitted)
            && (outcome.Written? <==> admitted && r.faults.content == NoFault && r.faults.index == NoFault)
    ensures var outcome := Write(s, r).1;
            outcome.Written? ==>
              && outcome.metadata.path == r.path && outcome.metadata.info == r.info
              && outcome.metadata.size == |r.content| && outcome.metadata.digest == Sha256(r.content)
              && ((forall e :: e in s.index ==> e.path != r.path) ==> outcome.metadata.id == r.freshId)
  {
    LookupAbsent(s.index, r.path);
    if e :| e in s.index && e.path == r.path {
      var i :| 0 <= i < |s.index| && s.index[i] == e;
      assert Lookup(s.index, r.path).Some?;
    }
  }

  /** The store after a run of writes. */
  function WriteAll(s: Store, requests: seq<Request>): Store
    decreases |requests|
  {
    if requests == [] then s else WriteAll(Write(s, requests[0]).0, requests[1..])
  }

  /** Every identifier is new where it is generated. */
  ghost predicate FreshThroughout(s: Store, requests: seq<Request>)
    decreases |requests|
  {
    requests == [] || (Unused(s, requests[0].freshId) && FreshThroughout(Write(s, requests[0]).0, requests[1..]))
  }

  lemma {:induction false} RunsStayConsistent(s: Store, requests: seq<Request>)
    requires Consistent(s) && FreshThroughout(s, requests)
    requires forall i :: 0 <= i < |requests| ==> CleanFaults(requests[i].faults)
    ensures Consistent(WriteAll(s, requests))
    decreases |requests|
  {
    if requests != [] {
      WriteKeepsAgreement(s, requests[0]);
      RunsStayConsistent(Write(s, requests[0]).0, requests[1..]);
    }
  }

  /** An artifact that no later write may overwrite keeps its content and its entry, whatever faults strike. */
  lemma {:induction false} WrittenOnceStays(s: Store, requests: seq<Request>, path: string)
    requires WellShaped(s) && FreshThroughout(s, requests) && path in s.files
    requires forall i :: 0 <= i < |requests| && requests[i].path == path ==> !requests[i].overwrite
    ensures ContentAt(WriteAll(s, requests).files, path) == Some(s.files[path])
    ensures Lookup(WriteAll(s, requests).index, path) == Lookup(s.index, path)
    decreases |requests|
  {
    if requests != [] {
      var r := requests[0];
      WriteKeepsShape(s, r);
      if r.path != path {
        OthersUntouched(s, r, path);
      }
      WrittenOnceStays(Write(s, r).0, requests[1..], path);
    }
  }

  // ---- The store in place --------------------------------------------------

  class ArtifactStore {
    var files: map<string, Bytes>
    var directories: set<string>
    var index: seq<Metadata>

    constructor ()
      ensures View() == Store(map[], {}, []) && Consistent(View())
    {
      files, directories, index := map[], {}, [];
    }

    ghost function View(): Store
      reads this
    {
      Store(files, directories, index)
    }

    method ReplaceContent(path: string, content: Bytes, fault: Fault)
      modifies this`files
      ensures files == AfterReplace(old(files), path, content, fault)
    {
      if !fault.FailsBefore? {
        files := files[path := content];
      }
    }

    method Rollback(path: string, previous: Option<Bytes>, fault: Fault)
      modifies this`files
      ensures files == Restored(old(files), path, previous, fault)
    {
      match previous {
        case None =>
          if !fault.FailsBefore? {
            files := files - {path};
          }
        case Some(content) =>
          ReplaceContent(path, content, fault);
      }
    }

    method Put(r: Request) returns (outcome: Outcome)
      modifies this`files, this`index
      ensures (View(), outcome) == Write(old(View()), r)
    {
      if r.path == "" || r.path == INDEX_NAME {
        return InvalidPath;
      }
      var existing := Lookup(index, r.path);
      if (r.path in files || r.path in directories || existing.Some?) && !r.overwrite {
        return Conflict;
      }
      if r.path in directories {
        return Conflict;
      }
      var id := if existing.Some? then existing.value.id else r.freshId;
      var metadata := Metadata(id, r.path, |r.content|, Sha256(r.content), r.info);
      var artifacts := SortByPath(WithoutId(index, id) + [metadata]);
      var previous := ContentAt(files, r.path);
      ReplaceContent(r.path, r.content, r.faults.content);
      if !r.faults.content.NoFault? {
        return StorageError;
      }
      if !r.faults.index.FailsBefore? {
        index := artifacts;
      }
      if !r.faults.index.NoFault? {
        Rollback(r.path, previous, r.faults.rollback);
        return StorageError;
      }
      return Written(metadata);
    }
  }
}
