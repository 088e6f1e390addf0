/** The artifact index: one entry per path, kept sorted by path. */
module ArtifactIndexes {
  import opened Wrappers

  datatype Info = Info(mediaType: string, category: string, producer: string, description: string, createdAt: int)

  datatype Metadata = Metadata(id: string, path: string, size: nat, digest: Digest<Bytes>, info: Info)

  // ---- Order of paths ------------------------------------------------------

  /** Strictly earlier by code points, as Python compares strings. */
  predicate Before(a: string, b: string) {
    && b != []
    && (a == [] || a[0] < b[0] || (a[0] == b[0] && Before(a[1..], b[1..])))
  }

  lemma {:induction false} BeforeIrreflexive(a: string)
    ensures !Before(a, a)
  {
    if a != [] {
      BeforeIrreflexive(a[1..]);
    }
  }

  lemma {:induction false} BeforeTransitive(a: string, b: string, c: string)
    requires Before(a, b) && Before(b, c)
    ensures Before(a, c)
  {
    if a != [] && a[0] == b[0] && b[0] == c[0] {
      BeforeTransitive(a[1..], b[1..], c[1..]);
    }
  }

  lemma {:induction false} BeforeTotal(a: string, b: string)
    ensures Before(a, b) || a == b || Before(b, a)
  {
    if a != [] && b != [] && a[0] == b[0] {
      BeforeTotal(a[1..], b[1..]);
      assert a == [a[0]] + a[1..] && b == [b[0]] + b[1..];
    }
  }

  /** Up to position k the two agree, and there a ends or has the smaller character. */
  predicate DiffersAt(a: string, b: string, k: nat) {
    k <= |a| && k < |b| && a[..k] == b[..k] && (k == |a| || a[k] < b[k])
  }

  lemma {:induction false} CodePointOrder(a: string, b: string)
    ensures Before(a, b) <==> exists k: nat :: DiffersAt(a, b, k)
  {
    if b != [] && a != [] {
      if k: nat :| DiffersAt(a, b, k) {
        if k > 0 {
          assert a[..k][0] == b[..k][0];
          assert a[1..][..k - 1] == a[..k][1..] && b[1..][..k - 1] == b[..k][1..];
          assert DiffersAt(a[1..], b[1..], k - 1);
        }
      }
      CodePointOrder(a[1..], b[1..]);
      if Before(a, b) {
        if a[0] < b[0] {
          assert DiffersAt(a, b, 0);
        } else {
          var k: nat :| DiffersAt(a[1..], b[1..], k);
          assert a[..k + 1] == [a[0]] + a[1..][..k] && b[..k + 1] == [b[0]] + b[1..][..k];
          assert DiffersAt(a, b, k + 1);
        }
      }
    } else if b != [] {
      assert DiffersAt(a, b, 0);
    }
  }

  // ---- Sorting -------------------------------------------------------------

  /** Stable insertion: after every entry that does not come later. */
  function InsertByPath(index: seq<Metadata>, m: Metadata): seq<Metadata> {
    if index == [] then [m]
    else if Before(m.path, index[0].path) then [m] + index
    else [index[0]] + InsertByPath(index[1..], m)
  }

  function SortByPath(entries: seq<Metadata>): seq<Metadata> {
    if entries == [] then []
    else InsertByPath(SortByPath(entries[..|entries| - 1]), entries[|entries| - 1])
  }

  predicate StrictlySorted(index: seq<Metadata>) {
    forall i, j :: 0 <= i < j < |index| ==> Before(index[i].path, index[j].path)
  }

  predicate DistinctIds(index: seq<Metadata>) {
    forall i, j :: 0 <= i < j < |index| ==> index[i].id != index[j].id
  }

  /** The first entry for a path. */
  function Lookup(index: seq<Metadata>, path: string): (r: Option<Metadata>)
    ensures r.Some? ==> r.value in index && r.value.path == path
  {
    if index == [] then None else if index[0].path == path then Some(index[0]) else Lookup(index[1..], path)
  }

  lemma {:induction false} LookupAt(index: seq<Metadata>, i: nat)
    requires StrictlySorted(index) && i < |index|
    ensures Lookup(index, index[i].path) == Some(index[i])
  {
    if i > 0 {
      BeforeIrreflexive(index[0].path);
      LookupAt(index[1..], i - 1);
    }
  }

  lemma {:induction false} LookupAbsent(index: seq<Metadata>, path: string)
    ensures Lookup(index, path) == None <==> forall i :: 0 <= i < |index| ==> index[i].path != path
  {
    if index != [] {
      LookupAbsent(index[1..], path);
    }
  }

  /** Inserting keeps the members, each with its place relative to the others. */
  lemma {:induction false} InsertMembers(index: seq<Metadata>, m: Metadata)
    ensures forall e :: e in InsertByPath(index, m) <==> e in index || e == m
  {
    if index != [] && !Before(m.path, index[0].path) {
      InsertMembers(index[1..], m);
      assert index == [index[0]] + index[1..];
    }
  }

  lemma {:induction false} InsertSorted(index: seq<Metadata>, m: Metadata)
    requires StrictlySorted(index) && Lookup(index, m.path) == None
    ensures StrictlySorted(InsertByPath(index, m))
  {
    if index != [] {
      var rest := index[1..];
      if Before(m.path, index[0].path) {
        forall e | e in index
          ensures Before(m.path, e.path)
        {
          if e != index[0] {
            BeforeTransitive(m.path, index[0].path, e.path);
          }
        }
      } else {
        BeforeTotal(m.path, index[0].path);
        InsertSorted(rest, m);
        InsertMembers(rest, m);
        forall e | e in InsertByPath(rest, m)
          ensures Before(index[0].path, e.path)
        {
        }
      }
    }
  }

  lemma {:induction false} InsertLookup(index: seq<Metadata>, m: Metadata, path: string)
    requires Lookup(index, m.path) == None
    ensures Lookup(InsertByPath(index, m), path) == if path == m.path then Some(m) else Lookup(index, path)
  {
    if index != [] && !Before(m.path, index[0].path) {
      InsertLookup(index[1..], m, path);
      assert InsertByPath(index, m)[1..] == InsertByPath(index[1..], m);
    } else if index != [] {
      assert InsertByPath(index, m)[1..] == index;
    }
  }

  lemma {:induction false} InsertIds(index: seq<Metadata>, m: Metadata)
    requires DistinctIds(index) && forall e :: e in index ==> e.id != m.id
    ensures DistinctIds(InsertByPath(index, m))
  {
    if index != [] && !Before(m.path, index[0].path) {
      InsertIds(index[1..], m);
      InsertMembers(index[1..], m);
      forall e | e in InsertByPath(index[1..], m)
        ensures e.id != index[0].id
      {
      }
    }
  }

  /** Appending the greatest entry needs no move. */
  lemma {:induction false} InsertLast(index: seq<Metadata>, m: Metadata)
    requires StrictlySorted(index + [m])
    ensures InsertByPath(index, m) == index + [m]
  {
    if index != [] {
      var all := index + [m];
      assert Before(all[0].path, all[|index|].path);
      if Before(m.path, index[0].path) {
        BeforeTransitive(m.path, index[0].path, m.path);
        BeforeIrreflexive(m.path);
      }
      assert index[1..] + [m] == all[1..];
      InsertLast(index[1..], m);
    }
  }

  lemma {:induction false} SortOfSorted(index: seq<Metadata>)
    requires StrictlySorted(index)
    ensures SortByPath(index) == index
  {
    if index != [] {
      var init, m := index[..|index| - 1], index[|index| - 1];
      assert init + [m] == index;
      SortOfSorted(init);
      InsertLast(init, m);
    }
  }

  // ---- Replacing one entry -------------------------------------------------

  function WithoutId(index: seq<Metadata>, id: string): seq<Metadata> {
    if index == [] then []
    else (if index[0].id != id then [index[0]] else []) + WithoutId(index[1..], id)
  }

  lemma {:induction false} WithoutIdMembers(index: seq<Metadata>, id: string)
    ensures forall e :: e in WithoutId(index, id) <==> e in index && e.id != id
  {
    if index != [] {
      WithoutIdMembers(index[1..], id);
      assert index == [index[0]] + index[1..];
    }
  }

  lemma {:induction false} WithoutIdKeeps(index: seq<Metadata>, id: string)
    requires StrictlySorted(index) && DistinctIds(index)
    ensures StrictlySorted(WithoutId(index, id)) && DistinctIds(WithoutId(index, id))
  {
    if index != [] {
      WithoutIdKeeps(index[1..], id);
      WithoutIdMembers(index[1..], id);
    }
  }

  /** Only the path of the removed entry loses its entry. */
  lemma {:induction false} WithoutIdLookup(index: seq<Metadata>, id: string, path: string)
    requires StrictlySorted(index)
    ensures Lookup(WithoutId(index, id), path)
         == if Lookup(index, path).Some? && Lookup(index, path).value.id != id then Lookup(index, path) else None
  {
    if index != [] {
      WithoutIdLookup(index[1..], id, path);
      if index[0].path == path {
        PathOccursOnce(index, path);
      }
      if index[0].id != id {
        assert WithoutId(index, id)[1..] == WithoutId(index[1..], id);
      } else {
        assert WithoutId(index, id) == WithoutId(index[1..], id);
      }
    }
  }

  lemma PathOccursOnce(index: seq<Metadata>, path: string)
    requires StrictlySorted(index) && index != [] && index[0].path == path
    ensures Lookup(index[1..], path) == None
  {
    LookupAbsent(index[1..], path);
    BeforeIrreflexive(path);
  }

  /** The index with the entry for `m.path` replaced, or added when there is none. */
  function Updated(index: seq<Metadata>, m: Metadata): seq<Metadata> {
    SortByPath(WithoutId(index, m.id) + [m])
  }

  /** The id an entry for `path` must carry: the one it has, or an unused one. */
  predicate OwnId(index: seq<Metadata>, m: Metadata) {
    match Lookup(index, m.path)
    case Some(existing) => m.id == existing.id
    case None => forall e :: e in index ==> e.id != m.id
  }

  /** Updating keeps the order and the ids, and changes the entry of one path only. */
  lemma UpdatedKeeps(index: seq<Metadata>, m: Metadata)
    requires StrictlySorted(index) && DistinctIds(index) && OwnId(index, m)
    ensures StrictlySorted(Updated(index, m)) && DistinctIds(Updated(index, m))
    ensures forall path :: Lookup(Updated(index, m), path) == if path == m.path then Some(m) else Lookup(index, path)
  {
    var rest := WithoutId(index, m.id);
    WithoutIdKeeps(index, m.id);
    WithoutIdMembers(index, m.id);
    SortOfSorted(rest);
    assert (rest + [m])[..|rest|] == rest;
    assert Updated(index, m) == InsertByPath(rest, m);
    WithoutIdLookup(index, m.id, m.path);
    InsertSorted(rest, m);
    InsertIds(rest, m);
    forall path
      ensures Lookup(Updated(index, m), path) == if path == m.path then Some(m) else Lookup(index, path)
    {
      InsertLookup(rest, m, path);
      WithoutIdLookup(index, m.id, path);
      if path != m.path && Lookup(index, path).Some? && Lookup(index, path).value.id == m.id {
        SameIdSamePath(index, m, path);
      }
    }
  }

  lemma SameIdSamePath(index: seq<Metadata>, m: Metadata, path: string)
    requires DistinctIds(index) && OwnId(index, m)
    requires Lookup(index, path).Some? && Lookup(index, path).value.id == m.id
    ensures path == m.path
  {
    var e := Lookup(index, path).value;
    if Lookup(index, m.path).Some? {
      var f := Lookup(index, m.path).value;
      var i :| 0 <= i < |index| && index[i] == e;
      var j :| 0 <= j < |index| && index[j] == f;
    }
  }
}
