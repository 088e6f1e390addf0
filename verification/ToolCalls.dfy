/** Reassembling tool calls from the fragments of a stream. */
module ToolCalls {
  import opened Wrappers

  /** A text field of a fragment: missing, an explicit null, or given. */
  datatype Field = Absent | Null | Text(text: string)

  /** One fragment: which call it belongs to and what it adds; missing names and arguments are empty. */
  datatype Fragment = Fragment(index: Option<int>, id: Field, kind: Field, name: string, arguments: string)

  /** A merged call; None is a null. */
  datatype Call = Call(id: Option<string>, kind: Option<string>, name: string, arguments: string)

  const FUNCTION := "function"

  // ---- Merging -------------------------------------------------------------

  /** Without an index a fragment belongs to call 0. */
  function Key(f: Fragment): int {
    if f.index.Some? then f.index.value else 0
  }

  function OrDefault(field: Field, default: string): Option<string> {
    match field
    case Absent => Some(default)
    case Null => None
    case Text(text) => Some(text)
  }

  function Opened(f: Fragment): Call {
    Call(OrDefault(f.id, ""), OrDefault(f.kind, FUNCTION), "", "")
  }

  predicate GivesId(f: Fragment) {
    f.id.Text? && f.id.text != ""
  }

  function Extended(call: Call, f: Fragment): Call {
    Call(if GivesId(f) then Some(f.id.text) else call.id, call.kind, call.name + f.name, call.arguments + f.arguments)
  }

  /** The dictionary after one more fragment. */
  function Absorb(merged: map<int, Call>, f: Fragment): map<int, Call> {
    merged[Key(f) := Extended(if Key(f) in merged then merged[Key(f)] else Opened(f), f)]
  }

  function Merged(chunks: seq<Fragment>): map<int, Call> {
    if chunks == [] then map[] else Absorb(Merged(chunks[..|chunks| - 1]), chunks[|chunks| - 1])
  }

  predicate Increasing(keys: seq<int>) {
    forall i, j :: 0 <= i < j < |keys| ==> keys[i] < keys[j]
  }

  /** The calls of a dictionary in ascending order of their indices. */
  ghost predicate InIndexOrder(calls: seq<Call>, keys: seq<int>, merged: map<int, Call>) {
    && Increasing(keys)
    && (forall k :: k in keys <==> k in merged)
    && |calls| == |keys|
    && forall i :: 0 <= i < |keys| ==> calls[i] == merged[keys[i]]
  }

  ghost predicate Ordered(calls: seq<Call>, merged: map<int, Call>) {
    exists keys :: InIndexOrder(calls, keys, merged)
  }

  lemma LastIsGreatest(keys: seq<int>, k: int)
    requires keys != [] && Increasing(keys)
    ensures k in keys[..|keys| - 1] <==> k in keys && k != keys[|keys| - 1]
    ensures k in keys ==> k <= keys[|keys| - 1]
  {
    assert keys == keys[..|keys| - 1] + [keys[|keys| - 1]];
  }

  /** The order is determined by the dictionary: there is only one such list. */
  lemma {:induction false} IncreasingUnique(a: seq<int>, b: seq<int>)
    requires Increasing(a) && Increasing(b) && forall k :: k in a <==> k in b
    ensures a == b
  {
    if a != [] {
      assert a[0] in a;
    }
    if b != [] {
      assert b[0] in b;
      var init, init' := a[..|a| - 1], b[..|b| - 1];
      LastIsGreatest(a, b[|b| - 1]);
      LastIsGreatest(b, a[|a| - 1]);
      assert b[|b| - 1] in b && a[|a| - 1] in a;
      forall k: int
        ensures k in init <==> k in init'
      {
        LastIsGreatest(a, k);
        LastIsGreatest(b, k);
      }
      IncreasingUnique(init, init');
      assert a == init + [a[|a| - 1]] && b == init' + [b[|b| - 1]];
    }
  }

  lemma OrderUnique(calls: seq<Call>, calls': seq<Call>, merged: map<int, Call>)
    requires Ordered(calls, merged) && Ordered(calls', merged)
    ensures calls == calls'
  {
    var keys :| InIndexOrder(calls, keys, merged);
    var keys' :| InIndexOrder(calls', keys', merged);
    IncreasingUnique(keys, keys');
  }

  /** Insertion into an ascending list. */
  function InsertKey(keys: seq<int>, k: int): seq<int> {
    if keys == [] || k < keys[0] then [k] + keys
    else if k == keys[0] then keys
    else [keys[0]] + InsertKey(keys[1..], k)
  }

  lemma {:induction false} InsertKeyMembers(keys: seq<int>, k: int, j: int)
    ensures j in InsertKey(keys, k) <==> j in keys || j == k
  {
    if keys != [] {
      assert keys == [keys[0]] + keys[1..];
      if k > keys[0] {
        InsertKeyMembers(keys[1..], k, j);
      }
    }
  }

  lemma {:induction false} InsertKeySorted(keys: seq<int>, k: int)
    requires Increasing(keys)
    ensures Increasing(InsertKey(keys, k))
  {
    if keys != [] && k > keys[0] {
      var rest := InsertKey(keys[1..], k);
      InsertKeySorted(keys[1..], k);
      forall i | 0 <= i < |rest|
        ensures keys[0] < rest[i]
      {
        assert rest[i] in rest;
        InsertKeyMembers(keys[1..], k, rest[i]);
      }
    }
  }

  method MergeStreamToolCalls(chunks: seq<Fragment>) returns (calls: seq<Call>)
    ensures Ordered(calls, Merged(chunks))
  {
    var merged: map<int, Call> := map[];
    var order: seq<int> := [];
    for n := 0 to |chunks|
      invariant merged == Merged(chunks[..n])
      invariant Increasing(order) && forall k :: k in order <==> k in merged
    {
      var f := chunks[n];
      assert chunks[..n + 1][..n] == chunks[..n];
      var index := if f.index.Some? then f.index.value else 0;
      InsertKeySorted(order, index);
      forall k: int
        ensures k in InsertKey(order, index) <==> k in order || k == index
      {
        InsertKeyMembers(order, index, k);
      }
      if index !in merged {
        merged := merged[index := Opened(f)];
        order := InsertKey(order, index);
      }
      var entry := merged[index];
      if GivesId(f) {
        entry := entry.(id := Some(f.id.text));
      }
      entry := entry.(name := entry.name + f.name, arguments := entry.arguments + f.arguments);
      merged := merged[index := entry];
    }
    assert chunks[..|chunks|] == chunks;
    calls := seq(|order|, i requires 0 <= i < |order| => assert order[i] in order; merged[order[i]]);
    assert InIndexOrder(calls, order, merged);
  }

  // ---- What the fragments of one call say ----------------------------------

  /** The fragments of one index, in stream order. */
  function Of(chunks: seq<Fragment>, index: int): seq<Fragment> {
    if chunks == [] then []
    else
      Of(chunks[..|chunks| - 1], index)
      + if Key(chunks[|chunks| - 1]) == index then [chunks[|chunks| - 1]] else []
  }

  function Names(fragments: seq<Fragment>): string {
    if fragments == [] then "" else fragments[0].name + Names(fragments[1..])
  }

  function Arguments(fragments: seq<Fragment>): string {
    if fragments == [] then "" else fragments[0].arguments + Arguments(fragments[1..])
  }

  /** The last identifier that is given, or else what the first fragment opened the call with. */
  function LastId(fragments: seq<Fragment>): Option<string>
    requires fragments != []
  {
    var last := fragments[|fragments| - 1];
    if GivesId(last) then Some(last.id.text)
    else if |fragments| == 1 then Opened(last).id
    else LastId(fragments[..|fragments| - 1])
  }

  /** The call its fragments describe. */
  function Described(fragments: seq<Fragment>): Call
    requires fragments != []
  {
    Call(LastId(fragments), Opened(fragments[0]).kind, Names(fragments), Arguments(fragments))
  }

  lemma {:induction false} TextsAppend(fragments: seq<Fragment>, f: Fragment)
    ensures Names(fragments + [f]) == Names(fragments) + f.name
    ensures Arguments(fragments + [f]) == Arguments(fragments) + f.arguments
  {
    if fragments == [] {
      assert fragments + [f] == [f] && [f][1..] == [];
    } else {
      TextsAppend(fragments[1..], f);
      assert (fragments + [f])[1..] == fragments[1..] + [f];
    }
  }

  lemma DescribedAppend(fragments: seq<Fragment>, f: Fragment)
    ensures Described(fragments + [f])
         == if fragments == [] then Extended(Opened(f), f) else Extended(Described(fragments), f)
  {
    TextsAppend(fragments, f);
    assert (fragments + [f])[..|fragments|] == fragments;
  }

  /** The merge of any interleaving holds, for every index, the call that index's own fragments describe. */
  lemma {:induction false} MergedIsDescribed(chunks: seq<Fragment>, index: int)
    ensures index in Merged(chunks) <==> Of(chunks, index) != []
    ensures Of(chunks, index) != [] ==> Merged(chunks)[index] == Described(Of(chunks, index))
  {
    if chunks != [] {
      var init, f := chunks[..|chunks| - 1], chunks[|chunks| - 1];
      MergedIsDescribed(init, index);
      if Key(f) == index {
        DescribedAppend(Of(init, index), f);
        assert Of(chunks, index) == Of(init, index) + [f];
      } else {
        assert Of(chunks, index) == Of(init, index);
      }
    }
  }

  /** A call's fragments are those with its index, and for call 0 also those without one. */
  lemma {:induction false} OfMeans(chunks: seq<Fragment>, index: int, f: Fragment)
    ensures f in Of(chunks, index) <==> f in chunks && (f.index == Some(index) || (f.index == None && index == 0))
  {
    if chunks != [] {
      var init, last := chunks[..|chunks| - 1], chunks[|chunks| - 1];
      OfMeans(init, index, f);
      assert chunks == init + [last];
    }
  }

  /** The kind is the first fragment's: "function" when it is missing, and null when it is null. */
  lemma KindMeans(fragments: seq<Fragment>)
    requires fragments != []
    ensures Described(fragments).kind == match fragments[0].kind
                                         case Absent => Some("function")
                                         case Null => None
                                         case Text(text) => Some(text)
  {
  }

  predicate Unnamed(f: Fragment) {
    f.id == Absent || f.id == Null || f.id == Text("")
  }

  /** The identifier is the last nonempty one. */
  lemma {:induction false} LastNamedId(fragments: seq<Fragment>, i: nat)
    requires i < |fragments| && fragments[i].id.Text? && fragments[i].id.text != ""
    requires forall j :: i < j < |fragments| ==> Unnamed(fragments[j])
    ensures Described(fragments).id == Some(fragments[i].id.text)
  {
    var n := |fragments| - 1;
    if i < n {
      assert Unnamed(fragments[n]);
      LastNamedId(fragments[..n], i);
    }
  }

  /** Without one it is what the first fragment has: null, or nothing. */
  lemma {:induction false} UnnamedId(fragments: seq<Fragment>)
    requires fragments != [] && forall j :: 0 <= j < |fragments| ==> Unnamed(fragments[j])
    ensures Described(fragments).id == if fragments[0].id == Null then None else Some("")
  {
    var n := |fragments| - 1;
    assert Unnamed(fragments[n]);
    if n > 0 {
      UnnamedId(fragments[..n]);
    }
  }

  // ---- Round trip ----------------------------------------------------------

  /** No fragment gives another id, and the call's id is given by one, or is what the first one opened with. */
  predicate SpellsId(fragments: seq<Fragment>, id: Option<string>)
    requires fragments != []
  {
    && (forall i :: 0 <= i < |fragments| && GivesId(fragments[i]) ==> Some(fragments[i].id.text) == id)
    && (Opened(fragments[0]).id == id || exists i :: 0 <= i < |fragments| && GivesId(fragments[i]))
  }

  /**
   The fragments spell out the call: its texts cut anywhere, its id as above, and its kind on
   the first unless it is the default.
  */
  predicate Fragments(fragments: seq<Fragment>, call: Call) {
    && fragments != []
    && Names(fragments) == call.name && Arguments(fragments) == call.arguments
    && SpellsId(fragments, call.id)
    && Opened(fragments[0]).kind == call.kind
  }

  lemma {:induction false} LastIdIsSpelled(fragments: seq<Fragment>, id: Option<string>)
    requires fragments != [] && SpellsId(fragments, id)
    ensures LastId(fragments) == id
  {
    var n := |fragments| - 1;
    if !GivesId(fragments[n]) && n > 0 {
      var init := fragments[..n];
      if Opened(fragments[0]).id != id {
        var i :| 0 <= i < |fragments| && GivesId(fragments[i]);
        assert GivesId(init[i]);
      }
      LastIdIsSpelled(init, id);
    }
  }

  /** Every stream whose per-index fragments spell out the calls merges back to exactly those calls. */
  lemma InterleavingsMergeBack(chunks: seq<Fragment>, calls: map<int, Call>)
    requires forall index :: index in calls ==> Fragments(Of(chunks, index), calls[index])
    requires forall index :: index !in calls ==> Of(chunks, index) == []
    ensures Merged(chunks) == calls
  {
    forall index
      ensures index in Merged(chunks) <==> index in calls
      ensures index in calls ==> Merged(chunks)[index] == calls[index]
    {
      MergedIsDescribed(chunks, index);
      if index in calls {
        LastIdIsSpelled(Of(chunks, index), calls[index].id);
      }
    }
  }
}
