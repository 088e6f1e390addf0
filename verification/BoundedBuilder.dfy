/**
 Rebuilding one bounded subtree from the shared event iterator, as the `get` and
 `slice` queries do once they have found the start of a value.
 */
module BoundedBuilder {
  import opened Wrappers
  import opened JsonTree
  import opened PathEvents

  const MAX_NODES: nat := 10_000
  const MAX_SCALAR_CHARS: nat := 20_000

  // ---- The object builder --------------------------------------------------

  datatype Open = OpenArray(items: seq<Json>) | OpenObject(members: seq<Member>, key: string)

  /** Containers being filled, innermost first, and the finished root if any. */
  datatype Builder = Builder(open: seq<Open>, value: Option<Json>)

  const EMPTY_BUILDER := Builder([], None)

  function Attach(open: seq<Open>, value: Json): Builder {
    if open == [] then Builder([], Some(value))
    else
      match open[0]
      case OpenArray(items) => Builder([OpenArray(items + [value])] + open[1..], None)
      case OpenObject(members, key) => Builder([OpenObject(Put(members, key, value), key)] + open[1..], None)
  }

  function Feed(b: Builder, e: Event): Builder {
    match e
    case ScalarValue(s) => Attach(b.open, Leaf(s))
    case StartArray => Builder([OpenArray([])] + b.open, b.value)
    case StartMap => Builder([OpenObject([], "")] + b.open, b.value)
    case MapKey(key) =>
      if b.open != [] && b.open[0].OpenObject?
      then Builder([b.open[0].(key := key)] + b.open[1..], b.value) else b
    case EndArray => Close(b)
    case EndMap => Close(b)
  }

  function Close(b: Builder): Builder {
    if b.open == [] then b
    else Attach(b.open[1..], match b.open[0]
                             case OpenArray(items) => Array(items)
                             case OpenObject(members, _) => Object(members))
  }

  function DepthChange(e: Event): int {
    if e.StartMap? || e.StartArray? then 1 else if e.EndMap? || e.EndArray? then -1 else 0
  }

  function EventChars(e: Event): nat {
    if e.ScalarValue? then |e.scalar.text| else 0
  }

  datatype Built =
    | BuiltValue(value: Json)
    | TooLarge        // over one of the two budgets
    | BrokenStream    // the labelling generator raised
    | EndOfStream     // the document ended inside the value

  /** Outcome of rebuilding a value, with what the shared iterator still holds after success. */
  datatype BuildRun = BuildRun(result: Built, rest: Output)

  function Fails(result: Built): BuildRun {
    BuildRun(result, Output([], false))
  }

  datatype Progress = Progress(builder: Builder, depth: int, nodes: nat, chars: nat)

  const START := Progress(EMPTY_BUILDER, 0, 0, 0)

  function Consume(p: Progress, e: Event): Progress {
    Progress(Feed(p.builder, e), p.depth + DepthChange(e), p.nodes + 1, p.chars + EventChars(e))
  }

  predicate OverBudget(p: Progress) {
    p.nodes > MAX_NODES || p.chars > MAX_SCALAR_CHARS
  }

  /** What rebuilding does with the events in `out`, starting from `p`. */
  function Build(p: Progress, out: Output): BuildRun
    decreases |out.events|, 0
  {
    if out.events == [] then Fails(if out.broken then BrokenStream else EndOfStream)
    else Judge(Consume(p, out.events[0].event), Output(out.events[1..], out.broken))
  }

  /** The decision taken after every consumed event: give up, finish, or go on. */
  function Judge(p: Progress, rest: Output): BuildRun
    decreases |rest.events|, 1
  {
    if OverBudget(p) then Fails(TooLarge)
    else if p.depth == 0 then BuildRun(Finished(p.builder), rest)
    else Build(p, rest)
  }

  /** The builder's value; a stream that closes nothing it opened leaves none. */
  function Finished(b: Builder): Built {
    match b.value
    case Some(v) => BuiltValue(v)
    case None => BrokenStream
  }

  method BuildBounded(events: PathEventIterator, first: PathEvent) returns (r: Built)
    requires events.Valid()
    modifies events
    ensures events.Valid()
    ensures r == Build(START, Prepend([first], old(events.Rest()))).result
    ensures r.BuiltValue? ==> events.Rest() == Build(START, Prepend([first], old(events.Rest()))).rest
  {
    var builder, depth := EMPTY_BUILDER, 0;
    var nodes: nat, scalarChars: nat := 0, 0;
    var current := first;
    ghost var all := Prepend([first], events.Rest());
    while true
      invariant events.Valid()
      invariant Build(START, all)
             == Build(Progress(builder, depth, nodes, scalarChars), Prepend([current], events.Rest()))
      decreases |events.Rest().events|
    {
      ghost var rest := events.Rest();
      BuildStep(Progress(builder, depth, nodes, scalarChars), current, rest);
      var event := current.event;
      nodes := nodes + 1;
      scalarChars := scalarChars + EventChars(event);
      if nodes > MAX_NODES || scalarChars > MAX_SCALAR_CHARS {
        return TooLarge;
      }
      builder := Feed(builder, event);
      depth := depth + DepthChange(event);
      if depth == 0 {
        return Finished(builder);
      }
      var next := events.Next();
      match next {
        case Item(e) =>
          current := e;
          assert Prepend([e], events.Rest()) == rest;
        case Exhausted => return EndOfStream;
        case Raised => return BrokenStream;
      }
    }
  }

  lemma {:induction false} BuildShrinks(p: Progress, out: Output)
    requires Build(p, out).result.BuiltValue?
    ensures |Build(p, out).rest.events| < |out.events|
    decreases |out.events|
  {
    var p', rest := Consume(p, out.events[0].event), Output(out.events[1..], out.broken);
    if p'.depth != 0 {
      BuildShrinks(p', rest);
    }
  }

  // ---- Rebuilding a labelled subtree ---------------------------------------

  lemma BuildStep(p: Progress, pe: PathEvent, rest: Output)
    ensures Build(p, Prepend([pe], rest)) == Judge(Consume(p, pe.event), rest)
  {
    assert Prepend([pe], rest).events[1..] == rest.events;
  }

  lemma PrependNothing(rest: Output)
    ensures Prepend([], rest) == rest
  {
    assert [] + rest.events == rest.events;
  }

  lemma ContainerLabels(open: PathEvent, inner: seq<PathEvent>, close: PathEvent, rest: Output)
    ensures Prepend([open] + inner + [close], rest)
         == Prepend([open], Prepend(inner, Prepend([close], rest)))
  {
    PrependTwice(inner, [close], rest);
    PrependTwice([open], inner + [close], rest);
    assert [open] + (inner + [close]) == [open] + inner + [close];
  }

  /** Progress after a whole value: one finished value more in the innermost container. */
  function After(p: Progress, j: Json): Progress {
    Progress(Attach(p.builder.open, Canon(j)), p.depth, p.nodes + EventCount(j), p.chars + ScalarChars(j))
  }

  ghost predicate Steady(p: Progress) {
    p.depth == |p.builder.open| && p.builder.value == None && !OverBudget(p)
  }

  lemma {:induction false} BuildTree(p: Progress, j: Json, path: Path, rest: Output)
    requires Steady(p)
    ensures Build(p, Prepend(Labels(j, path), rest)) == Judge(After(p, j), rest)
    decreases j, 1
  {
    var outer := p.builder.open;
    match j
    case Leaf(s) =>
      BuildStep(p, PathEvent(path, ScalarValue(s)), rest);
    case Array(items) =>
      var open, inner, close := PathEvent(path, StartArray), ItemLabels(items, path, 0), PathEvent(path, EndArray);
      var inside := Consume(p, StartArray);
      ContainerLabels(open, inner, close, rest);
      BuildStep(p, open, Prepend(inner, Prepend([close], rest)));
      if !OverBudget(inside) {
        BuildItems(inside, [], outer, items, path, 0, Prepend([close], rest));
        BuildStep(AfterItems(inside, [], outer, items), close, rest);
        CloseArray(p, items);
      }
    case Object(members) =>
      var open, inner, close := PathEvent(path, StartMap), MemberLabels(members, path), PathEvent(path, EndMap);
      var inside := Consume(p, StartMap);
      ContainerLabels(open, inner, close, rest);
      BuildStep(p, open, Prepend(inner, Prepend([close], rest)));
      if !OverBudget(inside) {
        BuildMembers(inside, [], "", outer, members, path, Prepend([close], rest));
        BuildStep(AfterMembers(inside, [], "", outer, members), close, rest);
        CloseObject(p, members);
      }
  }

  lemma CloseArray(p: Progress, items: seq<Json>)
    requires Steady(p)
    ensures Consume(AfterItems(Consume(p, StartArray), [], p.builder.open, items), EndArray) == After(p, Array(items))
  {
    assert [] + CanonItems(items) == CanonItems(items);
  }

  lemma CloseObject(p: Progress, members: seq<Member>)
    requires Steady(p)
    ensures Consume(AfterMembers(Consume(p, StartMap), [], "", p.builder.open, members), EndMap)
         == After(p, Object(members))
  {
  }

  function AfterItems(p: Progress, done: seq<Json>, outer: seq<Open>, items: seq<Json>): Progress {
    Progress(Builder([OpenArray(done + CanonItems(items))] + outer, None), p.depth,
             p.nodes + ItemEventCount(items), p.chars + ItemChars(items))
  }

  lemma {:induction false} BuildItems(p: Progress, done: seq<Json>, outer: seq<Open>, items: seq<Json>, path: Path,
                                      index: nat, rest: Output)
    requires Steady(p) && p.builder.open == [OpenArray(done)] + outer
    ensures Build(p, Prepend(ItemLabels(items, path, index), rest))
         == Judge(AfterItems(p, done, outer, items), rest)
    decreases items, 0
  {
    if items == [] {
      PrependNothing(rest);
      assert done + [] == done;
    } else {
      var here, others := path + [Decimal.ToText(index)], ItemLabels(items[1..], path, index + 1);
      PrependTwice(Labels(items[0], here), others, rest);
      BuildTree(p, items[0], here, Prepend(others, rest));
      OneItem(p, done, outer, items);
      if !OverBudget(After(p, items[0])) {
        BuildItems(After(p, items[0]), done + [Canon(items[0])], outer, items[1..], path, index + 1, rest);
      }
    }
  }

  lemma OneItem(p: Progress, done: seq<Json>, outer: seq<Open>, items: seq<Json>)
    requires p.builder.open == [OpenArray(done)] + outer && items != []
    ensures After(p, items[0]).builder.open == [OpenArray(done + [Canon(items[0])])] + outer
    ensures AfterItems(After(p, items[0]), done + [Canon(items[0])], outer, items[1..]) == AfterItems(p, done, outer, items)
  {
    assert ([OpenArray(done)] + outer)[1..] == outer;
    assert done + [Canon(items[0])] + CanonItems(items[1..]) == done + CanonItems(items);
  }

  function LastKey(key: string, members: seq<Member>): string {
    if members == [] then key else members[|members| - 1].key
  }

  function AfterMembers(p: Progress, done: seq<Member>, key: string, outer: seq<Open>, members: seq<Member>): Progress {
    Progress(Builder([OpenObject(PutAll(done, members), LastKey(key, members))] + outer, None), p.depth,
             p.nodes + MemberEventCount(members), p.chars + MemberChars(members))
  }

  lemma {:induction false} BuildMembers(p: Progress, done: seq<Member>, key: string, outer: seq<Open>,
                                        members: seq<Member>, path: Path, rest: Output)
    requires Steady(p) && p.builder.open == [OpenObject(done, key)] + outer
    ensures Build(p, Prepend(MemberLabels(members, path), rest))
         == Judge(AfterMembers(p, done, key, outer, members), rest)
    decreases members, 0
  {
    if members == [] {
      PrependNothing(rest);
    } else {
      var m, others := members[0], MemberLabels(members[1..], path);
      var keyEvent, labels := PathEvent(path, MapKey(m.key)), Labels(m.value, path + [m.key]);
      MemberLabelsStep(members, path, rest);
      BuildStep(p, keyEvent, Prepend(labels, Prepend(others, rest)));
      var keyed := Consume(p, MapKey(m.key));
      assert keyed.builder.open == [OpenObject(done, m.key)] + outer;
      if !OverBudget(keyed) {
        BuildTree(keyed, m.value, path + [m.key], Prepend(others, rest));
        OneMember(p, done, key, outer, members);
        if !OverBudget(After(keyed, m.value)) {
          BuildMembers(After(keyed, m.value), Put(done, m.key, Canon(m.value)), m.key, outer, members[1..], path, rest);
        }
      }
    }
  }

  lemma OneMember(p: Progress, done: seq<Member>, key: string, outer: seq<Open>, members: seq<Member>)
    requires p.builder.open == [OpenObject(done, key)] + outer && members != []
    ensures var m, done' := members[0], Put(done, members[0].key, Canon(members[0].value));
            var next := After(Consume(p, MapKey(m.key)), m.value);
            && next.builder.open == [OpenObject(done', m.key)] + outer
            && AfterMembers(next, done', m.key, outer, members[1..]) == AfterMembers(p, done, key, outer, members)
  {
    var m := members[0];
    assert Consume(p, MapKey(m.key)).builder.open == [OpenObject(done, m.key)] + outer;
    assert ([OpenObject(done, m.key)] + outer)[1..] == outer;
  }

  lemma MemberLabelsStep(members: seq<Member>, path: Path, rest: Output)
    requires members != []
    ensures Prepend(MemberLabels(members, path), rest)
         == Prepend([PathEvent(path, MapKey(members[0].key))],
                    Prepend(Labels(members[0].value, path + [members[0].key]),
                            Prepend(MemberLabels(members[1..], path), rest)))
  {
    var keyEvent := PathEvent(path, MapKey(members[0].key));
    var labels, others := Labels(members[0].value, path + [members[0].key]), MemberLabels(members[1..], path);
    PrependTwice(labels, others, rest);
    PrependTwice([keyEvent], labels + others, rest);
    assert [keyEvent] + (labels + others) == MemberLabels(members, path);
  }

  /** Both budgets of one rebuilt value: its events and the characters of its scalars. */
  predicate Fits(j: Json) {
    EventCount(j) <= MAX_NODES && ScalarChars(j) <= MAX_SCALAR_CHARS
  }

  /** Rebuilding a subtree succeeds exactly within both budgets and eats exactly its events. */
  lemma BuildSubtree(j: Json, path: Path, rest: Output)
    ensures Build(START, Prepend(Labels(j, path), rest))
         == if Fits(j) then BuildRun(BuiltValue(Canon(j)), rest) else Fails(TooLarge)
  {
    BuildTree(START, j, path, rest);
  }

  lemma {:induction false} CountsEvents(j: Json)
    ensures EventCount(j) == |Events(j)|
    decreases j, 1
  {
    match j
    case Leaf(_) =>
    case Array(items) => CountsItemEvents(items);
    case Object(members) => CountsMemberEvents(members);
  }

  lemma {:induction false} CountsItemEvents(items: seq<Json>)
    ensures ItemEventCount(items) == |ItemEvents(items)|
    decreases items, 0
  {
    if items != [] {
      CountsEvents(items[0]);
      CountsItemEvents(items[1..]);
    }
  }

  lemma {:induction false} CountsMemberEvents(members: seq<Member>)
    ensures MemberEventCount(members) == |MemberEvents(members)|
    decreases members, 0
  {
    if members != [] {
      CountsEvents(members[0].value);
      CountsMemberEvents(members[1..]);
    }
  }

  /** Characters of the scalars among some events. */
  function TextLength(events: seq<Event>): nat {
    if events == [] then 0
    else (if events[0].ScalarValue? then |events[0].scalar.text| else 0) + TextLength(events[1..])
  }

  lemma {:induction false} TextLengthConcat(a: seq<Event>, b: seq<Event>)
    ensures TextLength(a + b) == TextLength(a) + TextLength(b)
  {
    if a == [] {
      assert a + b == b;
    } else {
      assert (a + b)[1..] == a[1..] + b;
      TextLengthConcat(a[1..], b);
    }
  }

  lemma {:induction false} CountsText(j: Json)
    ensures ScalarChars(j) == TextLength(Events(j))
    decreases j, 1
  {
    match j
    case Leaf(s) => assert Events(j)[1..] == [];
    case Array(items) =>
      CountsItemText(items);
      TextLengthConcat([StartArray] + ItemEvents(items), [EndArray]);
      TextLengthConcat([StartArray], ItemEvents(items));
    case Object(members) =>
      CountsMemberText(members);
      TextLengthConcat([StartMap] + MemberEvents(members), [EndMap]);
      TextLengthConcat([StartMap], MemberEvents(members));
  }

  lemma {:induction false} CountsItemText(items: seq<Json>)
    ensures ItemChars(items) == TextLength(ItemEvents(items))
    decreases items, 0
  {
    if items != [] {
      CountsText(items[0]);
      CountsItemText(items[1..]);
      TextLengthConcat(Events(items[0]), ItemEvents(items[1..]));
    }
  }

  lemma {:induction false} CountsMemberText(members: seq<Member>)
    ensures MemberChars(members) == TextLength(MemberEvents(members))
    decreases members, 0
  {
    if members != [] {
      var m := members[0];
      CountsText(m.value);
      CountsMemberText(members[1..]);
      TextLengthConcat([MapKey(m.key)] + Events(m.value), MemberEvents(members[1..]));
      TextLengthConcat([MapKey(m.key)], Events(m.value));
    }
  }

  /** A value fits exactly with at most 10,000 events and 20,000 scalar characters, keys not counted. */
  lemma FitsMeans(j: Json)
    ensures Fits(j) <==> |Events(j)| <= 10_000 && TextLength(Events(j)) <= 20_000
  {
    CountsEvents(j);
    CountsText(j);
  }

  /** Scalar characters among some labelled events. */
  function LabelledText(events: seq<PathEvent>): nat {
    if events == [] then 0
    else (if events[0].event.ScalarValue? then |events[0].event.scalar.text| else 0) + LabelledText(events[1..])
  }

  /** A value is only called too large when what is left of the stream is, and only a stream that ends is called ended. */
  lemma {:induction false} RefusalsMean(p: Progress, out: Output)
    ensures Build(p, out).result == TooLarge
            ==> p.nodes + |out.events| > 10_000 || p.chars + LabelledText(out.events) > 20_000
    ensures Build(p, out).result == EndOfStream ==> !out.broken
    decreases |out.events|
  {
    if out.events != [] {
      var next, rest := Consume(p, out.events[0].event), Output(out.events[1..], out.broken);
      RefusalsMean(next, rest);
      assert Build(p, out) == Judge(next, rest);
      assert Finished(next.builder) != TooLarge && Finished(next.builder) != EndOfStream;
    }
  }
}
