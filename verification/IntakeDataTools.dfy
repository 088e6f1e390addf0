/**
 The streaming loops behind `data_get`, `data_keys` and `data_slice`, and what a client
 sees: RFC 6901 evaluation within the budgets, and pages that add up to the container.
 */
module IntakeDataTools {
  import opened Wrappers
  import opened JsonTree
  import opened JsonPointer
  import opened PathEvents
  import opened BoundedBuilder
  import opened StreamScans

  const MAX_ITEMS := 100
  const MAX_OUTPUT_CHARS := 20_000

  // ---- The three queries on the text of a pointer --------------------------

  function GetResult(source: seq<Event>, pointer: string): Answer<Json> {
    match ParsePointer(pointer)
    case None => Failed(InvalidPointer)
    case Some(target) => ScanGet(Run([], source), target)
  }

  function KeysResult(source: seq<Event>, pointer: string, start: nat, count: nat): Answer<Page<KeyEntry>> {
    match ParsePointer(pointer)
    case None => Failed(InvalidPointer)
    case Some(target) => ScanKeys(Run([], source), target, start, count, false, Page([], 0))
  }

  function SliceResult(source: seq<Event>, pointer: string, start: nat, count: nat): Answer<Page<Json>> {
    match ParsePointer(pointer)
    case None => Failed(InvalidPointer)
    case Some(target) => ScanSlice(Run([], source), target, start, count, false, Page([], 0))
  }

  /** Rebuild the value that `current` starts, in the terms of the scans. */
  method BuildHere(events: PathEventIterator, current: PathEvent) returns (r: Answer<Json>)
    requires events.Valid()
    modifies events
    ensures events.Valid()
    ensures r == Rebuild(Prepend([current], old(events.Rest()))).0
    ensures r.Found? ==> events.Rest() == Rebuild(Prepend([current], old(events.Rest()))).1
  {
    var built := BuildBounded(events, current);
    r := FromBuilt(built);
  }

  method StreamGet(source: seq<Event>, pointer: string) returns (r: Answer<Json>)
    ensures r == GetResult(source, pointer)
  {
    var parsed := ParsePointer(pointer);
    if parsed == None {
      return Failed(InvalidPointer);
    }
    var target := parsed.value;
    var events := new PathEventIterator(source);
    while true
      invariant fresh(events) && events.Valid()
      invariant ScanGet(Run([], source), target) == ScanGet(events.Rest(), target)
      decreases |events.Rest().events|
    {
      ghost var out := events.Rest();
      var next := events.Next();
      match next {
        case Exhausted => return Failed(NotFound);
        case Raised => return Failed(BadDocument);
        case Item(current) =>
          HeadTail(out);
          GetStep(current, events.Rest(), target);
          if current.path == target && IsValueStart(current.event) {
            r := BuildHere(events, current);
            return;
          }
      }
    }
  }

  method StreamKeys(source: seq<Event>, pointer: string, start: nat, count: nat) returns (r: Answer<Page<KeyEntry>>)
    ensures r == KeysResult(source, pointer, start, count)
  {
    var parsed := ParsePointer(pointer);
    if parsed == None {
      return Failed(InvalidPointer);
    }
    var target := parsed.value;
    var entries: seq<KeyEntry>, total: nat, found := [], 0, false;
    var events := new PathEventIterator(source);
    while true
      invariant fresh(events) && events.Valid()
      invariant ScanKeys(Run([], source), target, start, count, false, Page([], 0))
             == ScanKeys(events.Rest(), target, start, count, found, Page(entries, total))
      decreases |events.Rest().events|
    {
      ghost var out := events.Rest();
      var next := events.Next();
      match next {
        case Exhausted => return Failed(NotFound);
        case Raised => return Failed(BadDocument);
        case Item(current) =>
          HeadTail(out);
          ghost var page := Page(entries, total);
          KeysStep(current, events.Rest(), target, start, count, found, page);
          if current.path == target && current.event.StartMap? {
            found := true;
          } else {
            if found && IsChild(current, target) {
              if start <= total < start + count {
                entries := entries + [KeyEntry(current.path[|target|], KindOfEvent(current.event))];
              }
              total := total + 1;
            }
            assert Page(entries, total) == if found then AddKey(current, target, start, count, page) else page;
            if found && current.path == target && current.event.EndMap? {
              return Found(Page(entries, total));
            }
          }
      }
    }
  }

  /** The part of the slice loop that handles one child of the array: rebuild it when it is in the page. */
  method SliceChildHere(events: PathEventIterator, current: PathEvent, target: Path, start: nat, count: nat,
                        items: seq<Json>, total: nat) returns (r: Answer<Page<Json>>)
    requires events.Valid() && IsChild(current, target)
    modifies events
    ensures events.Valid()
    ensures SliceElement(current, old(events.Rest()), target, start, count, Page(items, total))
         == match r
            case Failed(reason) => Failed(reason)
            case Found(page) => ScanSlice(events.Rest(), target, start, count, true, page)
    ensures r.Found? ==> |events.Rest().events| <= |old(events.Rest()).events|
  {
    if !(start <= total < start + count) {
      return Found(Page(items, total + 1));
    }
    var built := BuildHere(events, current);
    match built {
      case Failed(reason) => r := Failed(reason);
      case Found(value) => r := Found(Page(items + [value], total + 1));
    }
  }

  method StreamSlice(source: seq<Event>, pointer: string, start: nat, count: nat) returns (r: Answer<Page<Json>>)
    ensures r == SliceResult(source, pointer, start, count)
  {
    var parsed := ParsePointer(pointer);
    if parsed == None {
      return Failed(InvalidPointer);
    }
    var target := parsed.value;
    var items: seq<Json>, total: nat, found := [], 0, false;
    var events := new PathEventIterator(source);
    while true
      invariant fresh(events) && events.Valid()
      invariant ScanSlice(Run([], source), target, start, count, false, Page([], 0))
             == ScanSlice(events.Rest(), target, start, count, found, Page(items, total))
      decreases |events.Rest().events|
    {
      ghost var out := events.Rest();
      var next := events.Next();
      match next {
        case Exhausted => return Failed(NotFound);
        case Raised => return Failed(BadDocument);
        case Item(current) =>
          HeadTail(out);
          SliceStep(current, events.Rest(), target, start, count, found, Page(items, total));
          if current.path == target && current.event.StartArray? {
            found := true;
          } else if found && IsChild(current, target) {
            var page := SliceChildHere(events, current, target, start, count, items, total);
            if page.Failed? {
              return Failed(page.reason);
            }
            items, total := page.value.entries, page.value.total;
          } else if found && current.path == target && current.event.EndArray? {
            return Found(Page(items, total));
          }
      }
    }
  }

  // ---- data_get, data_keys, data_slice on a document -----------------------

  /** Resolve the path in the tree; a value within the budgets is returned unchanged. */
  function ReferenceGet(j: Json, tokens: Path): Answer<Json> {
    match Resolve(j, tokens)
    case None => Failed(NotFound)
    case Some(v) => if Fits(v) then Found(v) else Failed(OverLimit)
  }

  lemma {:induction false} ResolvedIsUnique(j: Json, tokens: Path)
    requires UniqueKeys(j) && Resolve(j, tokens).Some?
    ensures UniqueKeys(Resolve(j, tokens).value)
    decreases tokens
  {
    if tokens != [] {
      match j
      case Array(items) =>
        var i := Decimal.ArrayIndex(tokens[0]).value;
        ItemIsUnique(items, i);
        ResolvedIsUnique(items[i], tokens[1..]);
      case Object(members) =>
        NamedIsUnique(members, tokens[0]);
        ResolvedIsUnique(MemberNamed(members, tokens[0]).value, tokens[1..]);
    }
  }

  lemma {:induction false} ItemIsUnique(items: seq<Json>, i: nat)
    requires UniqueInItems(items) && i < |items|
    ensures UniqueKeys(items[i])
    decreases items
  {
    if i > 0 {
      ItemIsUnique(items[1..], i - 1);
    }
  }

  lemma {:induction false} NamedIsUnique(members: seq<Member>, key: string)
    requires UniqueInMembers(members) && MemberNamed(members, key).Some?
    ensures UniqueKeys(MemberNamed(members, key).value)
    decreases members
  {
    if members[0].key != key {
      NamedIsUnique(members[1..], key);
    }
  }

  /**
   On a document with unique keys, streaming `get` is RFC 6901 evaluation within the budgets, for
   every pointer that is accepted, in the syntax of the standard or not.
  */
  lemma GetRefinesReference(j: Json, pointer: string)
    requires UniqueKeys(j)
    ensures GetResult(Events(j), pointer)
         == match ParsePointer(pointer)
            case None => Failed(InvalidPointer)
            case Some(tokens) => ReferenceGet(j, tokens)
  {
    match ParsePointer(pointer)
    case None =>
    case Some(tokens) =>
      GetFromTree(j, tokens);
      GetAnswerOfUnique(j, tokens);
  }

  lemma GetAnswerOfUnique(j: Json, tokens: Path)
    requires UniqueKeys(j)
    ensures GetAnswer(j, tokens) == ReferenceGet(j, tokens)
  {
    FirstAtIsResolve(j, tokens, AnyValue);
    match Resolve(j, tokens)
    case None =>
    case Some(v) =>
      ResolvedIsUnique(j, tokens);
      CanonIsIdentity(v);
  }

  /** Whatever the document, exactly a nonempty pointer without a leading "/" is refused as invalid. */
  lemma InvalidPointers(source: seq<Event>, pointer: string, start: nat, count: nat)
    ensures GetResult(source, pointer) == Failed(InvalidPointer) <==> pointer != "" && pointer[0] != '/'
    ensures KeysResult(source, pointer, start, count) == Failed(InvalidPointer) <==> pointer != "" && pointer[0] != '/'
    ensures SliceResult(source, pointer, start, count) == Failed(InvalidPointer) <==> pointer != "" && pointer[0] != '/'
  {
    AcceptedPointers(pointer);
    match ParsePointer(pointer)
    case None =>
    case Some(target) =>
      GetBlames(Run([], source), target);
      KeysBlame(Run([], source), target, start, count, false, Page([], 0));
      SliceBlames(Run([], source), target, start, count, false, Page([], 0));
  }

  /** Elements `start` to `start + count`, as far as they exist. */
  function Slice<T>(xs: seq<T>, start: nat, count: nat): seq<T> {
    if start >= |xs| then [] else if start + count >= |xs| then xs[start..] else xs[start..start + count]
  }

  lemma SliceLater<T>(xs: seq<T>, start: nat, count: nat)
    requires xs != [] && start > 0
    ensures Slice(xs, start, count) == Slice(xs[1..], start - 1, count)
  {
  }

  lemma SliceHead<T>(xs: seq<T>, count: nat)
    requires xs != [] && count > 0
    ensures Slice(xs, 0, count) == [xs[0]] + Slice(xs[1..], 0, count - 1)
  {
  }

  /** What the window of the elements from `index` on is. */
  function WindowFrom<T>(xs: seq<T>, index: nat, start: nat, count: nat): seq<T> {
    if index <= start then Slice(xs, start - index, count)
    else if index <= start + count then Slice(xs, 0, start + count - index)
    else []
  }

  lemma WindowFromCons<T>(xs: seq<T>, index: nat, start: nat, count: nat)
    requires xs != []
    ensures WindowFrom(xs, index, start, count)
         == (if InPage(index, start, count) then [xs[0]] else []) + WindowFrom(xs[1..], index + 1, start, count)
  {
    if index < start {
      SliceLater(xs, start - index, count);
    } else if index < start + count {
      SliceHead(xs, start + count - index);
    }
  }

  lemma {:induction false} WindowIsSlice<T>(xs: seq<T>, index: nat, start: nat, count: nat)
    ensures Window(xs, index, start, count) == WindowFrom(xs, index, start, count)
    decreases |xs|
  {
    if xs != [] {
      WindowIsSlice(xs[1..], index + 1, start, count);
      WindowFromCons(xs, index, start, count);
    }
  }

  lemma {:induction false} CanonWindow(items: seq<Json>, index: nat, start: nat, count: nat)
    ensures CanonItems(Window(items, index, start, count)) == Window(CanonItems(items), index, start, count)
    decreases |items|
  {
    if items != [] {
      var later := Window(items[1..], index + 1, start, count);
      CanonWindow(items[1..], index + 1, start, count);
      assert CanonItems(items)[1..] == CanonItems(items[1..]);
      assert ([items[0]] + later)[1..] == later;
      assert [] + later == later;
      assert [] + CanonItems(later) == CanonItems(later);
    }
  }

  lemma SliceOfUnique(items: seq<Json>, start: nat, count: nat)
    requires UniqueKeys(Array(items))
    ensures SliceOf(items, start, count)
         == if AllFit(Slice(items, start, count)) then Found(Page(Slice(items, start, count), |items|))
            else Failed(OverLimit)
  {
    WindowIsSlice(items, 0, start, count);
    CanonWindow(items, 0, start, count);
    CanonItemsIsIdentity(items);
  }

  /** Elements [start, start + count) of the array at the path and its length, if they all fit. */
  function ReferenceSlice(j: Json, tokens: Path, start: nat, count: nat): Answer<Page<Json>> {
    match Resolve(j, tokens)
    case Some(Array(items)) =>
      if AllFit(Slice(items, start, count)) then Found(Page(Slice(items, start, count), |items|)) else Failed(OverLimit)
    case _ => Failed(NotFound)
  }

  /** A slice query lists elements [start, start + count) and the array's length. */
  lemma SliceRefinesReference(j: Json, pointer: string, start: nat, count: nat)
    requires UniqueKeys(j)
    ensures SliceResult(Events(j), pointer, start, count)
         == match ParsePointer(pointer)
            case None => Failed(InvalidPointer)
            case Some(tokens) => ReferenceSlice(j, tokens, start, count)
  {
    match ParsePointer(pointer)
    case None =>
    case Some(tokens) =>
      SliceFromTree(j, tokens, start, count);
      SliceAnswerOfUnique(j, tokens, start, count);
  }

  lemma SliceAnswerOfUnique(j: Json, tokens: Path, start: nat, count: nat)
    requires UniqueKeys(j)
    ensures SliceAnswer(j, tokens, start, count) == ReferenceSlice(j, tokens, start, count)
  {
    FirstAtIsResolve(j, tokens, AnArray);
    match Resolve(j, tokens)
    case Some(Array(items)) =>
      ResolvedIsUnique(j, tokens);
      SliceOfUnique(items, start, count);
    case _ =>
  }

  lemma {:induction false} EntriesWindow(members: seq<Member>, index: nat, start: nat, count: nat)
    ensures KeyEntries(Window(members, index, start, count)) == Window(KeyEntries(members), index, start, count)
    decreases |members|
  {
    if members != [] {
      var later := Window(members[1..], index + 1, start, count);
      EntriesWindow(members[1..], index + 1, start, count);
      assert KeyEntries(members)[1..] == KeyEntries(members[1..]);
      assert ([members[0]] + later)[1..] == later;
      assert [] + later == later;
      assert [] + KeyEntries(later) == KeyEntries(later);
    }
  }

  lemma KeysOfSlice(members: seq<Member>, start: nat, count: nat)
    ensures KeysOf(members, start, count) == Page(Slice(KeyEntries(members), start, count), |members|)
  {
    EntriesWindow(members, 0, start, count);
    WindowIsSlice(KeyEntries(members), 0, start, count);
  }

  /** Names and kinds of members [start, start + count) of the object at the path, and their number. */
  function ReferenceKeys(j: Json, tokens: Path, start: nat, count: nat): Answer<Page<KeyEntry>> {
    match Resolve(j, tokens)
    case Some(Object(members)) => Found(Page(Slice(KeyEntries(members), start, count), |members|))
    case _ => Failed(NotFound)
  }

  /** A keys query lists the names and kinds of members [start, start + count) and their number. */
  lemma KeysRefinesReference(j: Json, pointer: string, start: nat, count: nat)
    requires UniqueKeys(j)
    ensures KeysResult(Events(j), pointer, start, count)
         == match ParsePointer(pointer)
            case None => Failed(InvalidPointer)
            case Some(tokens) => ReferenceKeys(j, tokens, start, count)
  {
    match ParsePointer(pointer)
    case None =>
    case Some(tokens) =>
      KeysFromTree(j, tokens, start, count);
      KeysAnswerOfUnique(j, tokens, start, count);
  }

  lemma KeysAnswerOfUnique(j: Json, tokens: Path, start: nat, count: nat)
    requires UniqueKeys(j)
    ensures KeysAnswer(j, tokens, start, count) == ReferenceKeys(j, tokens, start, count)
  {
    FirstAtIsResolve(j, tokens, AnObject);
    match Resolve(j, tokens)
    case Some(Object(members)) => KeysOfSlice(members, start, count);
    case _ =>
  }

  // ---- Following next_start ------------------------------------------------

  /** The paging fields of a `data_keys` or `data_slice` response. */
  datatype Response<+T> = Response(start: nat, returned: nat, total: nat, hasMore: bool, nextStart: Option<nat>,
                                   entries: seq<T>)

  function Respond<T>(start: nat, page: Page<T>): Response<T> {
    var returned := |page.entries|;
    Response(start, returned, page.total, start + returned < page.total,
             if start + returned < page.total then Some(start + returned) else None, page.entries)
  }

  predicate ValidPage(start: int, count: int) {
    start >= 0 && 1 <= count <= MAX_ITEMS
  }

  /** The rendered response, which must not be longer than the output limit. */
  function Rendered<T>(answer: Answer<T>, render: T -> string): Answer<string> {
    match answer
    case Failed(reason) => Failed(reason)
    case Found(payload) => if |render(payload)| > MAX_OUTPUT_CHARS then Failed(TooLong) else Found(render(payload))
  }

  function Responded<T>(start: nat, answer: Answer<Page<T>>): Answer<Response<T>> {
    match answer
    case Failed(reason) => Failed(reason)
    case Found(page) => Found(Respond(start, page))
  }

  method DataGet(source: seq<Event>, pointer: string, render: Json -> string) returns (r: Answer<string>)
    ensures r == Rendered(GetResult(source, pointer), render)
  {
    var answer := StreamGet(source, pointer);
    r := Rendered(answer, render);
  }

  method DataSlice(source: seq<Event>, pointer: string, start: int, count: int, render: Response<Json> -> string)
    returns (r: Answer<string>)
    ensures r == if !ValidPage(start, count) then Failed(InvalidPage)
                 else Rendered(Responded(start, SliceResult(source, pointer, start, count)), render)
  {
    if start < 0 || !(1 <= count <= MAX_ITEMS) {
      return Failed(InvalidPage);
    }
    var answer := StreamSlice(source, pointer, start, count);
    r := Rendered(Responded(start, answer), render);
  }

  method DataKeys(source: seq<Event>, pointer: string, start: int, count: int, render: Response<KeyEntry> -> string)
    returns (r: Answer<string>)
    ensures r == if !ValidPage(start, count) then Failed(InvalidPage)
                 else Rendered(Responded(start, KeysResult(source, pointer, start, count)), render)
  {
    if start < 0 || !(1 <= count <= MAX_ITEMS) {
      return Failed(InvalidPage);
    }
    var answer := StreamKeys(source, pointer, start, count);
    r := Rendered(Responded(start, answer), render);
  }

  /**
   A client that asks for page after page, each with a page size of its own choice, and goes
   on from `nextStart` as long as there is one. `ask(start, count)` is one query.
   */
  ghost predicate Pages<T(!new)>(xs: seq<T>, ask: (nat, nat) -> Answer<Page<T>>) {
    forall start: nat, count: nat :: ask(start, count) == Found(Page(Slice(xs, start, count), |xs|))
  }

  ghost function Follow<T(!new)>(xs: seq<T>, ask: (nat, nat) -> Answer<Page<T>>, sizes: nat -> nat, start: nat, k: nat)
    : seq<T>
    requires Pages(xs, ask) && forall i: nat :: sizes(i) > 0
    decreases |xs| - start
  {
    var response := Respond(start, ask(start, sizes(k)).value);
    match response.nextStart
    case None => response.entries
    case Some(next) => response.entries + Follow(xs, ask, sizes, next, k + 1)
  }

  /** Following `nextStart` from 0 ends and yields the whole container, nothing lost or repeated. */
  lemma {:induction false} FollowYieldsAll<T(!new)>(xs: seq<T>, ask: (nat, nat) -> Answer<Page<T>>, sizes: nat -> nat,
                                                   start: nat, k: nat)
    requires Pages(xs, ask) && forall i: nat :: sizes(i) > 0
    requires start <= |xs|
    ensures Follow(xs, ask, sizes, start, k) == xs[start..]
    decreases |xs| - start
  {
    var response := Respond(start, ask(start, sizes(k)).value);
    if response.nextStart.Some? {
      FollowYieldsAll(xs, ask, sizes, response.nextStart.value, k + 1);
    }
  }

  /** Both paged queries are such an `ask`; a slice needs every element to fit the budgets. */
  lemma QueriesArePages(j: Json, pointer: string)
    requires UniqueKeys(j) && ParsePointer(pointer).Some?
    ensures match Resolve(j, ParsePointer(pointer).value)
            case Some(Array(items)) =>
              AllFit(items) ==> Pages(items, (start, count) => SliceResult(Events(j), pointer, start, count))
            case Some(Object(members)) =>
              Pages(KeyEntries(members), (start, count) => KeysResult(Events(j), pointer, start, count))
            case _ => true
  {
    forall start: nat, count: nat
      ensures SliceResult(Events(j), pointer, start, count)
           == ReferenceSlice(j, ParsePointer(pointer).value, start, count)
      ensures KeysResult(Events(j), pointer, start, count)
           == ReferenceKeys(j, ParsePointer(pointer).value, start, count)
    {
      SliceRefinesReference(j, pointer, start, count);
      KeysRefinesReference(j, pointer, start, count);
    }
  }

  /** Paging through an array whose elements fit returns the array. */
  lemma SlicePagesAddUp(j: Json, pointer: string, items: seq<Json>, sizes: nat -> nat)
    requires UniqueKeys(j) && ParsePointer(pointer).Some? && AllFit(items)
    requires Resolve(j, ParsePointer(pointer).value) == Some(Array(items))
    requires forall i: nat :: sizes(i) > 0
    ensures var ask := (start, count) => SliceResult(Events(j), pointer, start, count);
            Pages(items, ask) && Follow(items, ask, sizes, 0, 0) == items
  {
    QueriesArePages(j, pointer);
    var ask := (start, count) => SliceResult(Events(j), pointer, start, count);
    FollowYieldsAll(items, ask, sizes, 0, 0);
  }

  // ---- The responses -------------------------------------------------------

  /** The paging fields: how much is returned of how much, and where the rest begins, if there is any. */
  lemma PagingFields<T>(xs: seq<T>, start: nat, count: nat)
    requires start <= |xs|
    ensures var r := Respond(start, Page(Slice(xs, start, count), |xs|));
            && r.start == start && r.total == |xs| && r.returned == |r.entries| <= count
            && r.entries == xs[start..start + r.returned]
            && (r.returned == count || start + r.returned == |xs|)
            && (r.hasMore <==> start + r.returned < |xs|)
            && (r.nextStart == if r.hasMore then Some(start + r.returned) else None)
  {
  }

  /** A page is refused exactly outside 1 to 100 entries or before the first one, whatever the document. */
  lemma RefusedPages(start: int, count: int)
    ensures ValidPage(start, count) <==> start >= 0 && count >= 1 && count <= 100
  {
  }

  /** An answer is refused as too long exactly when its rendering has more than 20,000 characters. */
  lemma RefusedRenderings<T>(payload: T, render: T -> string)
    ensures Rendered(Found(payload), render)
         == if |render(payload)| <= 20_000 then Found(render(payload)) else Failed(TooLong)
  {
  }
}
