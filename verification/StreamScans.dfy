/**
 Pointer queries as functions of the labelled event stream: find one value, list the
 keys of an object, slice an array. Each function is proved to answer from the tree.
 */
module StreamScans {
  import opened Wrappers
  import opened Decimal
  import opened JsonTree
  import opened JsonPointer
  import opened PathEvents
  import opened BoundedBuilder

  datatype Reason =
    | InvalidPointer   // neither empty nor starting with "/"
    | NotFound         // no value, object or array at the pointer
    | OverLimit        // the selected value exceeds a rebuilding budget
    | BadDocument      // the stream raised or ended inside a value
    | InvalidPage      // start below 0, or count outside 1..100
    | TooLong          // the rendered response exceeds the output limit

  datatype Answer<+T> = Found(value: T) | Failed(reason: Reason)

  datatype KeyEntry = KeyEntry(key: string, kind: Kind)

  /** A page of a container and the container's full length. */
  datatype Page<+T> = Page(entries: seq<T>, total: nat)

  function FromBuilt(b: Built): Answer<Json> {
    match b
    case BuiltValue(v) => Found(v)
    case TooLarge => Failed(OverLimit)
    case BrokenStream => Failed(BadDocument)
    case EndOfStream => Failed(BadDocument)
  }

  function AtEnd(out: Output): Reason {
    if out.broken then BadDocument else NotFound
  }

  /** A value start one level below the queried container. */
  predicate IsChild(e: PathEvent, target: Path) {
    |e.path| == |target| + 1 && e.path[..|target|] == target && IsValueStart(e.event)
  }

  predicate InPage(i: nat, start: nat, count: nat) {
    start <= i < start + count
  }

  /** The value rebuilt from the events in `out`, and the events left for the caller. */
  function Rebuild(out: Output): (r: (Answer<Json>, Output))
    ensures r.0.Found? ==> |r.1.events| < |out.events|
  {
    var run := Build(START, out);
    if run.result.BuiltValue? then BuildShrinks(START, out); (Found(run.result.value), run.rest)
    else (FromBuilt(run.result), run.rest)
  }

  // ---- The three scans, as functions of the remaining stream ---------------

  function Tail(out: Output): Output
    requires out.events != []
  {
    Output(out.events[1..], out.broken)
  }

  function ScanGet(out: Output, target: Path): Answer<Json>
    decreases |out.events|, 0
  {
    if out.events == [] then Failed(AtEnd(out)) else GetEvent(out.events[0], Tail(out), target)
  }

  /** What the get scan does with its next event. */
  function GetEvent(e: PathEvent, rest: Output, target: Path): Answer<Json>
    decreases |rest.events|, 1
  {
    if e.path == target && IsValueStart(e.event) then Rebuild(Prepend([e], rest)).0 else ScanGet(rest, target)
  }

  function AddKey(e: PathEvent, target: Path, start: nat, count: nat, page: Page<KeyEntry>): Page<KeyEntry> {
    if !IsChild(e, target) then page
    else Page(if InPage(page.total, start, count)
              then page.entries + [KeyEntry(e.path[|target|], KindOfEvent(e.event))] else page.entries,
              page.total + 1)
  }

  function ScanKeys(out: Output, target: Path, start: nat, count: nat, found: bool, page: Page<KeyEntry>)
    : Answer<Page<KeyEntry>>
    decreases |out.events|, 0
  {
    if out.events == [] then Failed(AtEnd(out))
    else KeysEvent(out.events[0], Tail(out), target, start, count, found, page)
  }

  /** What the keys scan does with its next event. */
  function KeysEvent(e: PathEvent, rest: Output, target: Path, start: nat, count: nat, found: bool,
                     page: Page<KeyEntry>): Answer<Page<KeyEntry>>
    decreases |rest.events|, 1
  {
    if e.path == target && e.event.StartMap? then ScanKeys(rest, target, start, count, true, page)
    else
      var page' := if found then AddKey(e, target, start, count, page) else page;
      if found && e.path == target && e.event.EndMap? then Found(page')
      else ScanKeys(rest, target, start, count, found, page')
  }

  function ScanSlice(out: Output, target: Path, start: nat, count: nat, found: bool, page: Page<Json>)
    : Answer<Page<Json>>
    decreases |out.events|, 0
  {
    if out.events == [] then Failed(AtEnd(out))
    else SliceEvent(out.events[0], Tail(out), target, start, count, found, page)
  }

  /** What the slice scan does with its next event. */
  function SliceEvent(e: PathEvent, rest: Output, target: Path, start: nat, count: nat, found: bool, page: Page<Json>)
    : Answer<Page<Json>>
    decreases |rest.events|, 2
  {
    if e.path == target && e.event.StartArray? then ScanSlice(rest, target, start, count, true, page)
    else if found && IsChild(e, target) then SliceElement(e, rest, target, start, count, page)
    else if found && e.path == target && e.event.EndArray? then Found(page)
    else ScanSlice(rest, target, start, count, found, page)
  }

  /** An element of the array: counted, and rebuilt when it is in the page. */
  function SliceElement(e: PathEvent, rest: Output, target: Path, start: nat, count: nat, page: Page<Json>)
    : Answer<Page<Json>>
    decreases |rest.events|, 1
  {
    if !InPage(page.total, start, count)
    then ScanSlice(rest, target, start, count, true, page.(total := page.total + 1))
    else
      var (built, after) := Rebuild(Prepend([e], rest));
      match built
      case Failed(reason) => Failed(reason)
      case Found(v) => ScanSlice(after, target, start, count, true, Page(page.entries + [v], page.total + 1))
  }

  // ---- What a document should answer ---------------------------------------

  function Bounded(j: Json): Answer<Json> {
    if Fits(j) then Found(Canon(j)) else Failed(OverLimit)
  }

  function GetAnswer(j: Json, target: Path): Answer<Json> {
    match FirstAt(j, target, AnyValue)
    case Some(v) => Bounded(v)
    case None => Failed(NotFound)
  }

  /** The part of `xs` (whose first element has index `index`) that lies in the page. */
  function Window<T>(xs: seq<T>, index: nat, start: nat, count: nat): seq<T> {
    if xs == [] then []
    else (if InPage(index, start, count) then [xs[0]] else []) + Window(xs[1..], index + 1, start, count)
  }

  function KindOf(j: Json): Kind {
    match j
    case Leaf(s) => KindOfEvent(ScalarValue(s))
    case Array(_) => ArrayKind
    case Object(_) => ObjectKind
  }

  function KeyEntries(members: seq<Member>): (r: seq<KeyEntry>)
    ensures |r| == |members|
  {
    if members == [] then []
    else [KeyEntry(members[0].key, KindOf(members[0].value))] + KeyEntries(members[1..])
  }

  function KeysOf(members: seq<Member>, start: nat, count: nat): Page<KeyEntry> {
    Page(KeyEntries(Window(members, 0, start, count)), |members|)
  }

  predicate AllFit(items: seq<Json>) {
    forall i :: 0 <= i < |items| ==> Fits(items[i])
  }

  function SliceOf(items: seq<Json>, start: nat, count: nat): Answer<Page<Json>> {
    var chosen := Window(items, 0, start, count);
    if AllFit(chosen) then Found(Page(CanonItems(chosen), |items|)) else Failed(OverLimit)
  }

  function KeysAnswer(j: Json, target: Path, start: nat, count: nat): Answer<Page<KeyEntry>> {
    match FirstAt(j, target, AnObject)
    case Some(o) => (match o case Object(members) => Found(KeysOf(members, start, count)) case _ => Failed(NotFound))
    case None => Failed(NotFound)
  }

  function SliceAnswer(j: Json, target: Path, start: nat, count: nat): Answer<Page<Json>> {
    match FirstAt(j, target, AnArray)
    case Some(a) => (match a case Array(items) => SliceOf(items, start, count) case _ => Failed(NotFound))
    case None => Failed(NotFound)
  }

  lemma RebuildSubtree(j: Json, path: Path, rest: Output)
    ensures Rebuild(Prepend(Labels(j, path), rest)).0 == Bounded(j)
    ensures Fits(j) ==> Rebuild(Prepend(Labels(j, path), rest)).1 == rest
  {
    BuildSubtree(j, path, rest);
  }

  // ---- Where labelled events can be ----------------------------------------

  /** Every label extends the value's own path, and only the first one starts a value there. */
  ghost predicate Below(labels: seq<PathEvent>, path: Path) {
    forall i :: 0 <= i < |labels| ==>
      path <= labels[i].path && (labels[i].path == path ==> !IsValueStart(labels[i].event))
  }

  lemma BelowConcat(a: seq<PathEvent>, b: seq<PathEvent>, path: Path)
    requires Below(a, path) && Below(b, path)
    ensures Below(a + b, path)
  {
  }

  lemma BelowDeeper(labels: seq<PathEvent>, path: Path, token: string)
    requires |labels| > 0 && labels[0].path == path + [token] && Below(labels[1..], path + [token])
    ensures Below(labels, path)
  {
    forall i | 0 <= i < |labels|
      ensures path <= labels[i].path && labels[i].path != path
    {
      if i > 0 {
        assert labels[i] == labels[1..][i - 1];
      }
      assert path + [token] <= labels[i].path;
      assert path == (path + [token])[..|path|];
    }
  }

  lemma {:induction false} LabelsBelow(j: Json, path: Path)
    ensures Below(Labels(j, path)[1..], path)
    decreases j, 1
  {
    match j
    case Leaf(_) =>
    case Array(items) =>
      ItemLabelsBelow(items, path, 0);
      BelowConcat(ItemLabels(items, path, 0), [PathEvent(path, EndArray)], path);
      assert Labels(j, path)[1..] == ItemLabels(items, path, 0) + [PathEvent(path, EndArray)];
    case Object(members) =>
      MemberLabelsBelow(members, path);
      BelowConcat(MemberLabels(members, path), [PathEvent(path, EndMap)], path);
      assert Labels(j, path)[1..] == MemberLabels(members, path) + [PathEvent(path, EndMap)];
  }

  lemma {:induction false} ItemLabelsBelow(items: seq<Json>, path: Path, index: nat)
    ensures Below(ItemLabels(items, path, index), path)
    decreases items, 0
  {
    if items != [] {
      var token := ToText(index);
      LabelsBelow(items[0], path + [token]);
      BelowDeeper(Labels(items[0], path + [token]), path, token);
      ItemLabelsBelow(items[1..], path, index + 1);
      BelowConcat(Labels(items[0], path + [token]), ItemLabels(items[1..], path, index + 1), path);
    }
  }

  lemma {:induction false} MemberLabelsBelow(members: seq<Member>, path: Path)
    ensures Below(MemberLabels(members, path), path)
    decreases members, 0
  {
    if members != [] {
      var m := members[0];
      var labels := Labels(m.value, path + [m.key]);
      LabelsBelow(m.value, path + [m.key]);
      BelowDeeper(labels, path, m.key);
      MemberLabelsBelow(members[1..], path);
      BelowConcat([PathEvent(path, MapKey(m.key))], labels, path);
      BelowConcat([PathEvent(path, MapKey(m.key))] + labels, MemberLabels(members[1..], path), path);
    }
  }

  // ---- One event, and events that change nothing ---------------------------

  lemma TailPrepend(e: PathEvent, rest: Output)
    ensures Prepend([e], rest).events != [] && Prepend([e], rest).events[0] == e
    ensures Tail(Prepend([e], rest)) == rest
  {
    assert Prepend([e], rest).events[1..] == rest.events;
  }

  lemma HeadTail(out: Output)
    requires out.events != []
    ensures Prepend([out.events[0]], Tail(out)) == out
  {
    assert [out.events[0]] + out.events[1..] == out.events;
  }

  lemma SplitFirst(labels: seq<PathEvent>, rest: Output)
    requires labels != []
    ensures Prepend(labels, rest) == Prepend([labels[0]], Prepend(labels[1..], rest))
  {
    PrependTwice([labels[0]], labels[1..], rest);
    assert [labels[0]] + labels[1..] == labels;
  }

  lemma {:induction false} KeysSkip(labels: seq<PathEvent>, target: Path, start: nat, count: nat, page: Page<KeyEntry>,
                                    rest: Output)
    requires forall i :: 0 <= i < |labels| ==> |labels[i].path| > |target| && !IsChild(labels[i], target)
    ensures ScanKeys(Prepend(labels, rest), target, start, count, true, page)
         == ScanKeys(rest, target, start, count, true, page)
    decreases |labels|
  {
    if labels == [] {
      PrependNothing(rest);
    } else {
      SplitFirst(labels, rest);
      TailPrepend(labels[0], Prepend(labels[1..], rest));
      KeysSkip(labels[1..], target, start, count, page, rest);
    }
  }

  lemma {:induction false} SliceSkip(labels: seq<PathEvent>, target: Path, start: nat, count: nat, page: Page<Json>,
                                     rest: Output)
    requires forall i :: 0 <= i < |labels| ==> |labels[i].path| > |target| && !IsChild(labels[i], target)
    ensures ScanSlice(Prepend(labels, rest), target, start, count, true, page)
         == ScanSlice(rest, target, start, count, true, page)
    decreases |labels|
  {
    if labels == [] {
      PrependNothing(rest);
    } else {
      SplitFirst(labels, rest);
      TailPrepend(labels[0], Prepend(labels[1..], rest));
      SliceSkip(labels[1..], target, start, count, page, rest);
    }
  }

  /** After its first event, a child of the container holds nothing the scans react to. */
  lemma ChildInterior(j: Json, target: Path, token: string)
    ensures forall i :: 0 <= i < |Labels(j, target + [token])[1..]| ==>
              && |Labels(j, target + [token])[1..][i].path| > |target|
              && !IsChild(Labels(j, target + [token])[1..][i], target)
  {
    var path := target + [token];
    LabelsBelow(j, path);
    forall i | 0 <= i < |Labels(j, path)[1..]|
      ensures |Labels(j, path)[1..][i].path| > |target| && !IsChild(Labels(j, path)[1..][i], target)
    {
      var e := Labels(j, path)[1..][i];
      assert path <= e.path;
      if |e.path| == |path| {
        assert e.path == path;
      }
    }
  }

  // ---- Inside the queried container ----------------------------------------

  lemma KeysChild(j: Json, target: Path, key: string, start: nat, count: nat, page: Page<KeyEntry>, rest: Output)
    ensures ScanKeys(Prepend(Labels(j, target + [key]), rest), target, start, count, true, page)
         == ScanKeys(rest, target, start, count, true,
                     Page(page.entries + (if InPage(page.total, start, count) then [KeyEntry(key, KindOf(j))] else []),
                          page.total + 1))
  {
    var labels := Labels(j, target + [key]);
    var first, inner := labels[0], Prepend(labels[1..], rest);
    SplitFirst(labels, rest);
    TailPrepend(first, inner);
    assert first.path[..|target|] == target && KindOfEvent(first.event) == KindOf(j);
    var page' := AddKey(first, target, start, count, page);
    assert page.entries + [] == page.entries;
    ChildInterior(j, target, key);
    KeysSkip(labels[1..], target, start, count, page', rest);
  }

  lemma {:induction false} KeysMembers(members: seq<Member>, target: Path, start: nat, count: nat, page: Page<KeyEntry>,
                                       rest: Output)
    ensures ScanKeys(Prepend(MemberLabels(members, target), rest), target, start, count, true, page)
         == ScanKeys(rest, target, start, count, true,
                     Page(page.entries + KeyEntries(Window(members, page.total, start, count)),
                          page.total + |members|))
    decreases members
  {
    if members == [] {
      PrependNothing(rest);
      assert page.entries + [] == page.entries;
    } else {
      var m := members[0];
      var others := Prepend(MemberLabels(members[1..], target), rest);
      MemberLabelsStep(members, target, rest);
      TailPrepend(PathEvent(target, MapKey(m.key)), Prepend(Labels(m.value, target + [m.key]), others));
      KeysChild(m.value, target, m.key, start, count, page, others);
      var chosen := if InPage(page.total, start, count) then [m] else [];
      var here := if InPage(page.total, start, count) then [KeyEntry(m.key, KindOf(m.value))] else [];
      var page' := Page(page.entries + here, page.total + 1);
      KeysMembers(members[1..], target, start, count, page', rest);
      var later := Window(members[1..], page.total + 1, start, count);
      assert KeyEntries(chosen + later) == here + KeyEntries(later) by {
        assert (chosen + later)[|chosen|..] == later;
        assert chosen + later == if chosen == [] then later else [m] + later;
      }
      assert page.entries + here + KeyEntries(later) == page.entries + (here + KeyEntries(later));
    }
  }

  lemma GetStep(e: PathEvent, rest: Output, target: Path)
    ensures ScanGet(Prepend([e], rest), target) == GetEvent(e, rest, target)
  {
    TailPrepend(e, rest);
  }

  lemma KeysStep(e: PathEvent, rest: Output, target: Path, start: nat, count: nat, found: bool, page: Page<KeyEntry>)
    ensures ScanKeys(Prepend([e], rest), target, start, count, found, page)
         == KeysEvent(e, rest, target, start, count, found, page)
  {
    TailPrepend(e, rest);
  }

  lemma SliceStep(e: PathEvent, rest: Output, target: Path, start: nat, count: nat, found: bool, page: Page<Json>)
    ensures ScanSlice(Prepend([e], rest), target, start, count, found, page)
         == SliceEvent(e, rest, target, start, count, found, page)
  {
    TailPrepend(e, rest);
  }

  /** What one child of the array does to the scan. */
  function AfterChild(j: Json, target: Path, start: nat, count: nat, page: Page<Json>, rest: Output): Answer<Page<Json>> {
    if !InPage(page.total, start, count)
    then ScanSlice(rest, target, start, count, true, page.(total := page.total + 1))
    else if !Fits(j) then Failed(OverLimit)
    else ScanSlice(rest, target, start, count, true, Page(page.entries + [Canon(j)], page.total + 1))
  }

  lemma SliceChild(j: Json, target: Path, token: string, start: nat, count: nat, page: Page<Json>, rest: Output)
    ensures ScanSlice(Prepend(Labels(j, target + [token]), rest), target, start, count, true, page)
         == AfterChild(j, target, start, count, page, rest)
  {
    var labels := Labels(j, target + [token]);
    var first, inner := labels[0], Prepend(labels[1..], rest);
    SplitFirst(labels, rest);
    SliceStep(first, inner, target, start, count, true, page);
    FirstIsChild(j, target, token);
    if InPage(page.total, start, count) {
      RebuildSubtree(j, target + [token], rest);
    } else {
      ChildInterior(j, target, token);
      SliceSkip(labels[1..], target, start, count, page.(total := page.total + 1), rest);
    }
  }

  lemma FirstIsChild(j: Json, target: Path, token: string)
    ensures IsChild(Labels(j, target + [token])[0], target)
    ensures Labels(j, target + [token])[0].path != target
  {
    assert (target + [token])[..|target|] == target;
  }

  /** What all items of the array from `items` on do to the scan. */
  function AfterItems(items: seq<Json>, target: Path, start: nat, count: nat, page: Page<Json>, rest: Output)
    : Answer<Page<Json>>
  {
    var chosen := Window(items, page.total, start, count);
    if AllFit(chosen)
    then ScanSlice(rest, target, start, count, true,
                   Page(page.entries + CanonItems(chosen), page.total + |items|))
    else Failed(OverLimit)
  }

  lemma {:induction false} SliceItems(items: seq<Json>, target: Path, start: nat, count: nat, page: Page<Json>,
                                      rest: Output)
    ensures ScanSlice(Prepend(ItemLabels(items, target, page.total), rest), target, start, count, true, page)
         == AfterItems(items, target, start, count, page, rest)
    decreases items
  {
    if items == [] {
      PrependNothing(rest);
      assert page.entries + [] == page.entries;
    } else {
      var token := ToText(page.total);
      var labels, others := Labels(items[0], target + [token]), ItemLabels(items[1..], target, page.total + 1);
      assert ItemLabels(items, target, page.total) == labels + others;
      PrependTwice(labels, others, rest);
      SliceChild(items[0], target, token, start, count, page, Prepend(others, rest));
      var next := Page(if InPage(page.total, start, count) then page.entries + [Canon(items[0])] else page.entries,
                       page.total + 1);
      SliceItems(items[1..], target, start, count, next, rest);
      AfterOneItem(items, target, start, count, page, rest);
    }
  }

  lemma AfterOneItem(items: seq<Json>, target: Path, start: nat, count: nat, page: Page<Json>, rest: Output)
    requires items != []
    ensures AfterItems(items, target, start, count, page, rest)
         == if !InPage(page.total, start, count)
            then AfterItems(items[1..], target, start, count, page.(total := page.total + 1), rest)
            else if !Fits(items[0]) then Failed(OverLimit)
            else AfterItems(items[1..], target, start, count, Page(page.entries + [Canon(items[0])], page.total + 1), rest)
  {
    var chosen, later := Window(items, page.total, start, count), Window(items[1..], page.total + 1, start, count);
    if InPage(page.total, start, count) {
      assert chosen == [items[0]] + later;
      AllFitCons(items[0], later);
      assert chosen[1..] == later;
      assert page.entries + [Canon(items[0])] + CanonItems(later) == page.entries + CanonItems(chosen);
    } else {
      assert chosen == later;
    }
  }

  lemma AllFitCons(item: Json, items: seq<Json>)
    ensures AllFit([item] + items) <==> Fits(item) && AllFit(items)
  {
    if AllFit([item] + items) {
      assert Fits(([item] + items)[0]);
      forall i | 0 <= i < |items|
        ensures Fits(items[i])
      {
        assert ([item] + items)[i + 1] == items[i];
      }
    }
  }

  // ---- Reaching the queried value ------------------------------------------

  predicate Starts(e: Event, w: Want) {
    match w
    case AnyValue => IsValueStart(e)
    case AnObject => e.StartMap?
    case AnArray => e.StartArray?
  }

  /** The stream from the first acceptable value start at `target` on. */
  function Locate(out: Output, target: Path, w: Want): Output
    decreases |out.events|
  {
    if out.events == [] then out
    else if out.events[0].path == target && Starts(out.events[0].event, w) then out
    else Locate(Tail(out), target, w)
  }

  lemma {:induction false} GetByLocating(out: Output, target: Path)
    ensures ScanGet(out, target)
         == var l := Locate(out, target, AnyValue); if l.events == [] then Failed(AtEnd(l)) else Rebuild(l).0
    decreases |out.events|
  {
    if out.events != [] {
      HeadTail(out);
      if !(out.events[0].path == target && IsValueStart(out.events[0].event)) {
        GetByLocating(Tail(out), target);
      }
    }
  }

  lemma {:induction false} KeysByLocating(out: Output, target: Path, start: nat, count: nat, page: Page<KeyEntry>)
    ensures ScanKeys(out, target, start, count, false, page)
         == var l := Locate(out, target, AnObject);
            if l.events == [] then Failed(AtEnd(l)) else ScanKeys(Tail(l), target, start, count, true, page)
    decreases |out.events|
  {
    if out.events != [] && !(out.events[0].path == target && out.events[0].event.StartMap?) {
      KeysByLocating(Tail(out), target, start, count, page);
    }
  }

  lemma {:induction false} SliceByLocating(out: Output, target: Path, start: nat, count: nat, page: Page<Json>)
    ensures ScanSlice(out, target, start, count, false, page)
         == var l := Locate(out, target, AnArray);
            if l.events == [] then Failed(AtEnd(l)) else ScanSlice(Tail(l), target, start, count, true, page)
    decreases |out.events|
  {
    if out.events != [] && !(out.events[0].path == target && out.events[0].event.StartArray?) {
      SliceByLocating(Tail(out), target, start, count, page);
    }
  }

  lemma LocateSkips(e: PathEvent, target: Path, w: Want, rest: Output)
    requires !(e.path == target && Starts(e.event, w))
    ensures Locate(Prepend([e], rest), target, w) == Locate(rest, target, w)
  {
    TailPrepend(e, rest);
  }

  /** The value wanted at `target` inside a value that sits at `path`. */
  function At(j: Json, path: Path, target: Path, w: Want): Option<Json> {
    if path <= target then FirstAt(j, target[|path|..], w) else None
  }

  lemma ChildPath(path: Path, token: string, target: Path)
    ensures path + [token] <= target <==> path < target && target[|path|] == token
    ensures path + [token] <= target ==> target[|path + [token]|..] == target[|path|..][1..]
  {
    if path < target && target[|path|] == token {
      assert target[..|path| + 1] == path + [token];
    }
    if path + [token] <= target {
      assert target[..|path|] == (path + [token])[..|path|] == path;
    }
  }

  /** Where locating ends up: at the labels of the wanted value, or as far as in `rest` alone. */
  ghost predicate Stops(wanted: Option<Json>, located: Output, rest: Output, target: Path, w: Want, after: Output) {
    match wanted
    case None => located == Locate(rest, target, w)
    case Some(v) => Accepts(w, v) && located == Prepend(Labels(v, target), after)
  }

  /** Locating in a labelled value stops at the value the tree has there, or passes it whole. */
  lemma {:induction false} LocateTree(j: Json, path: Path, target: Path, w: Want, rest: Output)
    returns (after: Output)
    ensures Stops(At(j, path, target, w), Locate(Prepend(Labels(j, path), rest), target, w), rest, target, w, after)
    decreases j, 1
  {
    after := rest;
    var labels := Labels(j, path);
    SplitFirst(labels, rest);
    if path == target && Accepts(w, j) {
      assert target[|path|..] == [];
    } else {
      LocateSkips(labels[0], target, w, Prepend(labels[1..], rest));
      match j
      case Leaf(_) =>
        assert labels[1..] == [];
        PrependNothing(rest);
      case Array(items) =>
        var close := PathEvent(path, EndArray);
        assert labels[1..] == ItemLabels(items, path, 0) + [close];
        PrependTwice(ItemLabels(items, path, 0), [close], rest);
        after := LocateItems(items, path, 0, target, w, Prepend([close], rest));
        LocateSkips(close, target, w, rest);
      case Object(members) =>
        var close := PathEvent(path, EndMap);
        assert labels[1..] == MemberLabels(members, path) + [close];
        PrependTwice(MemberLabels(members, path), [close], rest);
        after := LocateMembers(members, path, target, w, Prepend([close], rest));
        LocateSkips(close, target, w, rest);
    }
  }

  function AtItems(items: seq<Json>, index: nat, path: Path, target: Path, w: Want): Option<Json> {
    if path < target then FirstInItems(items, index, target[|path|..], w) else None
  }

  lemma {:induction false} LocateItems(items: seq<Json>, path: Path, index: nat, target: Path, w: Want, rest: Output)
    returns (after: Output)
    ensures Stops(AtItems(items, index, path, target, w),
                  Locate(Prepend(ItemLabels(items, path, index), rest), target, w), rest, target, w, after)
    decreases items, 0
  {
    after := rest;
    if items == [] {
      PrependNothing(rest);
    } else {
      var token := ToText(index);
      var others := Prepend(ItemLabels(items[1..], path, index + 1), rest);
      PrependTwice(Labels(items[0], path + [token]), ItemLabels(items[1..], path, index + 1), rest);
      ChildPath(path, token, target);
      after := LocateTree(items[0], path + [token], target, w, others);
      if At(items[0], path + [token], target, w) == None {
        after := LocateItems(items[1..], path, index + 1, target, w, rest);
      }
    }
  }

  function AtMembers(members: seq<Member>, path: Path, target: Path, w: Want): Option<Json> {
    if path < target then FirstInMembers(members, target[|path|..], w) else None
  }

  lemma {:induction false} LocateMembers(members: seq<Member>, path: Path, target: Path, w: Want, rest: Output)
    returns (after: Output)
    ensures Stops(AtMembers(members, path, target, w),
                  Locate(Prepend(MemberLabels(members, path), rest), target, w), rest, target, w, after)
    decreases members, 0
  {
    after := rest;
    if members == [] {
      PrependNothing(rest);
    } else {
      var m := members[0];
      var others := Prepend(MemberLabels(members[1..], path), rest);
      MemberLabelsStep(members, path, rest);
      LocateSkips(PathEvent(path, MapKey(m.key)), target, w, Prepend(Labels(m.value, path + [m.key]), others));
      ChildPath(path, m.key, target);
      after := LocateTree(m.value, path + [m.key], target, w, others);
      if At(m.value, path + [m.key], target, w) == None {
        after := LocateMembers(members[1..], path, target, w, rest);
      }
    }
  }

  // ---- The scans answer from the tree --------------------------------------

  lemma LocateInDocument(j: Json, target: Path, w: Want) returns (after: Output)
    ensures Stops(FirstAt(j, target, w), Locate(Run([], Events(j)), target, w), Output([], false), target, w, after)
  {
    DocumentLabels(j);
    var nothing := Output([], false);
    after := LocateTree(j, [], target, w, nothing);
    assert Prepend(Labels(j, []), nothing) == Output(Labels(j, []), false);
    assert target[0..] == target;
  }

  lemma GetFromTree(j: Json, target: Path)
    ensures ScanGet(Run([], Events(j)), target) == GetAnswer(j, target)
  {
    var after := LocateInDocument(j, target, AnyValue);
    GetByLocating(Run([], Events(j)), target);
    match FirstAt(j, target, AnyValue)
    case None =>
    case Some(v) => RebuildSubtree(v, target, after);
  }

  lemma KeysContainer(members: seq<Member>, target: Path, start: nat, count: nat, after: Output)
    ensures ScanKeys(Tail(Prepend(Labels(Object(members), target), after)), target, start, count, true, Page([], 0))
         == Found(KeysOf(members, start, count))
  {
    var open, close := PathEvent(target, StartMap), PathEvent(target, EndMap);
    var inner := MemberLabels(members, target);
    ContainerLabels(open, inner, close, after);
    TailPrepend(open, Prepend(inner, Prepend([close], after)));
    KeysMembers(members, target, start, count, Page([], 0), Prepend([close], after));
    var entries := KeyEntries(Window(members, 0, start, count));
    assert [] + entries == entries;
    KeysStep(close, after, target, start, count, true, KeysOf(members, start, count));
  }

  lemma KeysFromTree(j: Json, target: Path, start: nat, count: nat)
    ensures ScanKeys(Run([], Events(j)), target, start, count, false, Page([], 0)) == KeysAnswer(j, target, start, count)
  {
    var after := LocateInDocument(j, target, AnObject);
    KeysByLocating(Run([], Events(j)), target, start, count, Page([], 0));
    match FirstAt(j, target, AnObject)
    case None =>
    case Some(Object(members)) => KeysContainer(members, target, start, count, after);
    case Some(_) =>
  }

  lemma SliceContainer(items: seq<Json>, target: Path, start: nat, count: nat, after: Output)
    ensures ScanSlice(Tail(Prepend(Labels(Array(items), target), after)), target, start, count, true, Page([], 0))
         == SliceOf(items, start, count)
  {
    var open, close := PathEvent(target, StartArray), PathEvent(target, EndArray);
    var inner := ItemLabels(items, target, 0);
    ContainerLabels(open, inner, close, after);
    TailPrepend(open, Prepend(inner, Prepend([close], after)));
    SliceItems(items, target, start, count, Page([], 0), Prepend([close], after));
    var chosen := CanonItems(Window(items, 0, start, count));
    assert [] + chosen == chosen;
    SliceStep(close, after, target, start, count, true, Page(chosen, |items|));
  }

  lemma SliceFromTree(j: Json, target: Path, start: nat, count: nat)
    ensures ScanSlice(Run([], Events(j)), target, start, count, false, Page([], 0))
         == SliceAnswer(j, target, start, count)
  {
    var after := LocateInDocument(j, target, AnArray);
    SliceByLocating(Run([], Events(j)), target, start, count, Page([], 0));
    match FirstAt(j, target, AnArray)
    case None =>
    case Some(Array(items)) => SliceContainer(items, target, start, count, after);
    case Some(_) =>
  }

  // ---- What a scan can fail with -------------------------------------------

  /** A scan blames the document or its size, never the request. */
  predicate BlamesDocument<T>(answer: Answer<T>) {
    answer.Failed? ==> answer.reason in {NotFound, OverLimit, BadDocument}
  }

  lemma RebuildBlames(out: Output)
    ensures BlamesDocument(Rebuild(out).0)
    ensures Rebuild(out).0.Found? ==> |Rebuild(out).1.events| < |out.events|
  {
  }

  lemma {:induction false} GetBlames(out: Output, target: Path)
    ensures BlamesDocument(ScanGet(out, target))
    decreases |out.events|
  {
    if out.events != [] {
      if out.events[0].path == target && IsValueStart(out.events[0].event) {
        RebuildBlames(Prepend([out.events[0]], Tail(out)));
      } else {
        GetBlames(Tail(out), target);
      }
    }
  }

  lemma {:induction false} KeysBlame(out: Output, target: Path, start: nat, count: nat, found: bool,
                                    page: Page<KeyEntry>)
    ensures BlamesDocument(ScanKeys(out, target, start, count, found, page))
    decreases |out.events|
  {
    if out.events != [] {
      var e := out.events[0];
      if e.path == target && e.event.StartMap? {
        KeysBlame(Tail(out), target, start, count, true, page);
      } else {
        KeysBlame(Tail(out), target, start, count, found, if found then AddKey(e, target, start, count, page) else page);
      }
    }
  }

  lemma {:induction false} SliceBlames(out: Output, target: Path, start: nat, count: nat, found: bool,
                                      page: Page<Json>)
    ensures BlamesDocument(ScanSlice(out, target, start, count, found, page))
    decreases |out.events|, 0
  {
    if out.events != [] {
      var e, rest := out.events[0], Tail(out);
      if e.path == target && e.event.StartArray? {
        SliceBlames(rest, target, start, count, true, page);
      } else if found && IsChild(e, target) {
        ElementBlames(e, rest, target, start, count, page);
      } else {
        SliceBlames(rest, target, start, count, found, page);
      }
    }
  }

  lemma {:induction false} ElementBlames(e: PathEvent, rest: Output, target: Path, start: nat, count: nat,
                                        page: Page<Json>)
    ensures BlamesDocument(SliceElement(e, rest, target, start, count, page))
    decreases |rest.events|, 1
  {
    if !InPage(page.total, start, count) {
      SliceBlames(rest, target, start, count, true, page.(total := page.total + 1));
    } else {
      var all := Prepend([e], rest);
      RebuildBlames(all);
      var (built, after) := Rebuild(all);
      if built.Found? {
        SliceBlames(after, target, start, count, true, Page(page.entries + [built.value], page.total + 1));
      }
    }
  }

  lemma RebuildFinds(out: Output)
    ensures Rebuild(out).0 != Failed(NotFound)
  {
  }

  /** Nothing is found exactly when the stream is whole and no value starts at the path. */
  lemma {:induction false} NotFoundMeans(out: Output, target: Path)
    ensures ScanGet(out, target) == Failed(NotFound)
       <==> !out.broken && forall e :: e in out.events && e.path == target ==> !IsValueStart(e.event)
    decreases |out.events|
  {
    if out.events != [] {
      var e, rest := out.events[0], Tail(out);
      assert out.events == [e] + rest.events;
      if e.path == target && IsValueStart(e.event) {
        RebuildFinds(Prepend([e], rest));
      } else {
        NotFoundMeans(rest, target);
      }
    }
  }
}
