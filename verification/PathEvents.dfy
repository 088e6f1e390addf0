/**
 The stack machine that labels every parser event with the path it belongs to,
 and the proof that it labels a document as the tree does.
 */
module PathEvents {
  import opened Wrappers
  import opened Decimal
  import opened JsonTree

  datatype FrameKind = MapFrame | ArrayFrame
  datatype Frame = Frame(kind: FrameKind, path: Path, nextIndex: nat, currentKey: Option<string>)

  datatype PathEvent = PathEvent(path: Path, event: Event)

  /** What remains of an event iterator; `broken` says it ends by raising. */
  datatype Output = Output(events: seq<PathEvent>, broken: bool)

  datatype Labelling = Label(path: Path, stack: seq<Frame>) | Malformed

  /** One step of the generator: the path given to an event and the stack left behind. */
  function Advance(stack: seq<Frame>, e: Event): Labelling {
    var n := |stack|;
    match e
    case MapKey(key) =>
      if n == 0 || stack[n - 1].kind != MapFrame then Malformed
      else Label(stack[n - 1].path, stack[..n - 1] + [stack[n - 1].(currentKey := Some(key))])
    case EndMap => if n == 0 then Malformed else Label(stack[n - 1].path, stack[..n - 1])
    case EndArray => if n == 0 then Malformed else Label(stack[n - 1].path, stack[..n - 1])
    case ScalarValue(_) => Place(stack)
    case StartMap =>
      (match Place(stack)
       case Malformed => Malformed
       case Label(path, rest) => Label(path, rest + [Frame(MapFrame, path, 0, None)]))
    case StartArray =>
      (match Place(stack)
       case Malformed => Malformed
       case Label(path, rest) => Label(path, rest + [Frame(ArrayFrame, path, 0, None)]))
  }

  /** The path of the next value, and the stack with its slot consumed. */
  function Place(stack: seq<Frame>): Labelling {
    if stack == [] then Label([], [])
    else
      var parent, below := stack[|stack| - 1], stack[..|stack| - 1];
      match parent.kind
      case ArrayFrame =>
        Label(parent.path + [ToText(parent.nextIndex)],
              below + [parent.(nextIndex := parent.nextIndex + 1)])
      case MapFrame =>
        if parent.currentKey == None then Malformed
        else Label(parent.path + [parent.currentKey.value], below + [parent.(currentKey := None)])
  }

  function Run(stack: seq<Frame>, events: seq<Event>): Output
    decreases |events|
  {
    if events == [] then Output([], false)
    else
      match Advance(stack, events[0])
      case Malformed => Output([], true)
      case Label(path, after) =>
        var rest := Run(after, events[1..]);
        Output([PathEvent(path, events[0])] + rest.events, rest.broken)
  }

  /** Result of asking the iterator for one more event. */
  datatype Pull = Item(current: PathEvent) | Exhausted | Raised

  /** The labelling generator: a shared, mutable iterator over one parse. */
  class PathEventIterator {
    const source: seq<Event>
    var position: nat
    var stack: seq<Frame>

    ghost predicate Valid()
      reads this
    {
      position <= |source|
    }

    ghost function Rest(): Output
      requires Valid()
      reads this
    {
      Run(stack, source[position..])
    }

    constructor (events: seq<Event>)
      ensures Valid() && source == events && Rest() == Run([], events)
    {
      source := events;
      position, stack := 0, [];
    }

    method Next() returns (r: Pull)
      requires Valid()
      modifies this
      ensures Valid()
      ensures r.Item? <==> old(Rest()).events != []
      ensures r.Item? ==> r.current == old(Rest()).events[0]
      ensures r.Item? ==> Rest() == Output(old(Rest()).events[1..], old(Rest()).broken)
      ensures r.Raised? ==> old(Rest()) == Output([], true)
      ensures r.Exhausted? ==> old(Rest()) == Output([], false)
    {
      if position == |source| {
        return Exhausted;
      }
      var event := source[position];
      assert source[position..][1..] == source[position + 1..];
      match Advance(stack, event) {
        case Malformed =>
          r := Raised;
        case Label(path, after) =>
          ghost var before := Rest();
          stack, position := after, position + 1;
          assert before.events[1..] == Rest().events;
          r := Item(PathEvent(path, event));
      }
    }
  }

  // ---- The labels a document should get ------------------------------------

  function Labels(j: Json, path: Path): (r: seq<PathEvent>)
    ensures r != [] && r[0].path == path && IsValueStart(r[0].event)
    decreases j, 1
  {
    match j
    case Leaf(s) => [PathEvent(path, ScalarValue(s))]
    case Array(items) =>
      [PathEvent(path, StartArray)] + ItemLabels(items, path, 0) + [PathEvent(path, EndArray)]
    case Object(members) =>
      [PathEvent(path, StartMap)] + MemberLabels(members, path) + [PathEvent(path, EndMap)]
  }

  function ItemLabels(items: seq<Json>, path: Path, index: nat): seq<PathEvent>
    decreases items, 0
  {
    if items == [] then []
    else Labels(items[0], path + [ToText(index)]) + ItemLabels(items[1..], path, index + 1)
  }

  function MemberLabels(members: seq<Member>, path: Path): seq<PathEvent>
    decreases members, 0
  {
    if members == [] then []
    else [PathEvent(path, MapKey(members[0].key))] + Labels(members[0].value, path + [members[0].key])
         + MemberLabels(members[1..], path)
  }

  // ---- The stack machine computes them -------------------------------------

  function Prepend(first: seq<PathEvent>, rest: Output): Output {
    Output(first + rest.events, rest.broken)
  }

  lemma RunStep(stack: seq<Frame>, e: Event, rest: seq<Event>)
    requires Advance(stack, e).Label?
    ensures Run(stack, [e] + rest)
         == Prepend([PathEvent(Advance(stack, e).path, e)], Run(Advance(stack, e).stack, rest))
  {
    assert ([e] + rest)[1..] == rest;
  }

  lemma PrependTwice(a: seq<PathEvent>, b: seq<PathEvent>, rest: Output)
    ensures Prepend(a, Prepend(b, rest)) == Prepend(a + b, rest)
  {
    assert a + (b + rest.events) == a + b + rest.events;
  }

  lemma {:induction false} RunValue(stack: seq<Frame>, j: Json, rest: seq<Event>)
    requires Place(stack).Label?
    ensures Run(stack, Events(j) + rest)
         == Prepend(Labels(j, Place(stack).path), Run(Place(stack).stack, rest))
    decreases j, 2
  {
    match j
    case Leaf(s) => RunStep(stack, ScalarValue(s), rest);
    case Array(items) => RunArray(stack, items, rest);
    case Object(members) => RunObject(stack, members, rest);
  }

  /** A frame opened for a container and popped behind it leaves nothing but the container's labels. */
  lemma RunContainer(stack: seq<Frame>, open: Event, inner: seq<Event>, close: Event, rest: seq<Event>,
                     labels: seq<PathEvent>, filled: Frame)
    requires Place(stack).Label? && Advance(stack, open).Label? && (close.EndArray? || close.EndMap?)
    requires Advance(stack, open).path == Place(stack).path == filled.path
    requires Run(Advance(stack, open).stack, inner + ([close] + rest))
          == Prepend(labels, Run(Place(stack).stack + [filled], [close] + rest))
    ensures Run(stack, [open] + inner + [close] + rest)
         == Prepend([PathEvent(filled.path, open)] + labels + [PathEvent(filled.path, close)],
                    Run(Place(stack).stack, rest))
  {
    var after := Place(stack).stack;
    var first, last := PathEvent(filled.path, open), PathEvent(filled.path, close);
    assert [open] + inner + [close] + rest == [open] + (inner + ([close] + rest));
    RunStep(stack, open, inner + ([close] + rest));
    assert (after + [filled])[..|after|] == after;
    RunStep(after + [filled], close, rest);
    PrependTwice(labels, [last], Run(after, rest));
    PrependTwice([first], labels + [last], Run(after, rest));
    assert [first] + (labels + [last]) == [first] + labels + [last];
  }

  lemma {:induction false} RunArray(stack: seq<Frame>, items: seq<Json>, rest: seq<Event>)
    requires Place(stack).Label?
    ensures Run(stack, Events(Array(items)) + rest)
         == Prepend(Labels(Array(items), Place(stack).path), Run(Place(stack).stack, rest))
    decreases Array(items), 1
  {
    var path, after := Place(stack).path, Place(stack).stack;
    RunItems(after, path, items, 0, |items|, [EndArray] + rest);
    RunContainer(stack, StartArray, ItemEvents(items), EndArray, rest, ItemLabels(items, path, 0),
                 Frame(ArrayFrame, path, |items|, None));
  }

  lemma {:induction false} RunObject(stack: seq<Frame>, members: seq<Member>, rest: seq<Event>)
    requires Place(stack).Label?
    ensures Run(stack, Events(Object(members)) + rest)
         == Prepend(Labels(Object(members), Place(stack).path), Run(Place(stack).stack, rest))
    decreases Object(members), 1
  {
    var path, after := Place(stack).path, Place(stack).stack;
    RunMembers(after, path, members, [EndMap] + rest);
    RunContainer(stack, StartMap, MemberEvents(members), EndMap, rest, MemberLabels(members, path),
                 Frame(MapFrame, path, 0, None));
  }

  lemma PlaceInArray(below: seq<Frame>, path: Path, index: nat)
    ensures Place(below + [Frame(ArrayFrame, path, index, None)])
         == Label(path + [ToText(index)], below + [Frame(ArrayFrame, path, index + 1, None)])
  {
    var stack := below + [Frame(ArrayFrame, path, index, None)];
    assert stack[..|stack| - 1] == below;
  }

  ghost function InArray(below: seq<Frame>, path: Path, index: nat): seq<Frame> {
    below + [Frame(ArrayFrame, path, index, None)]
  }

  lemma {:induction false} RunItems(below: seq<Frame>, path: Path, items: seq<Json>, index: nat, end: nat,
                                    rest: seq<Event>)
    requires end == index + |items|
    ensures Run(InArray(below, path, index), ItemEvents(items) + rest)
         == Prepend(ItemLabels(items, path, index), Run(InArray(below, path, end), rest))
    decreases items, 0
  {
    if items == [] {
      RunNothing(InArray(below, path, index), rest);
    } else {
      var others := ItemEvents(items[1..]) + rest;
      assert ItemEvents(items) + rest == Events(items[0]) + others;
      PlaceInArray(below, path, index);
      RunValue(InArray(below, path, index), items[0], others);
      RunItems(below, path, items[1..], index + 1, end, rest);
      PrependTwice(Labels(items[0], path + [ToText(index)]), ItemLabels(items[1..], path, index + 1),
                   Run(InArray(below, path, end), rest));
    }
  }

  lemma RunNothing(stack: seq<Frame>, rest: seq<Event>)
    ensures Run(stack, [] + rest) == Prepend([], Run(stack, rest))
  {
    assert [] + rest == rest;
    assert [] + Run(stack, rest).events == Run(stack, rest).events;
  }

  lemma {:induction false} RunMembers(below: seq<Frame>, path: Path, members: seq<Member>, rest: seq<Event>)
    ensures Run(below + [Frame(MapFrame, path, 0, None)], MemberEvents(members) + rest)
         == Prepend(MemberLabels(members, path), Run(below + [Frame(MapFrame, path, 0, None)], rest))
    decreases members, 0
  {
    var stack := below + [Frame(MapFrame, path, 0, None)];
    assert stack[..|stack| - 1] == below;
    if members == [] {
      assert MemberEvents(members) + rest == rest;
      assert Prepend([], Run(stack, rest)) == Run(stack, rest);
    } else {
      var m, others := members[0], MemberEvents(members[1..]) + rest;
      var keyed := below + [Frame(MapFrame, path, 0, Some(m.key))];
      assert keyed[..|keyed| - 1] == below && Place(keyed) == Label(path + [m.key], stack);
      assert MemberEvents(members) + rest == [MapKey(m.key)] + (Events(m.value) + others);
      RunStep(stack, MapKey(m.key), Events(m.value) + others);
      RunValue(keyed, m.value, others);
      RunMembers(below, path, members[1..], rest);
      var labels, tail := Labels(m.value, path + [m.key]), Run(stack, rest);
      PrependTwice(labels, MemberLabels(members[1..], path), tail);
      PrependTwice([PathEvent(path, MapKey(m.key))], labels + MemberLabels(members[1..], path), tail);
      assert [PathEvent(path, MapKey(m.key))] + (labels + MemberLabels(members[1..], path))
          == MemberLabels(members, path);
    }
  }

  /** The generator turns the parse of a document into exactly the labels of its tree. */
  lemma DocumentLabels(j: Json)
    ensures Run([], Events(j)) == Output(Labels(j, []), false)
  {
    RunValue([], j, []);
    assert Events(j) + [] == Events(j);
    assert Labels(j, []) + [] == Labels(j, []);
  }

  /** The stream is not a document, whatever follows: a key or a closing outside, a value without a key. */
  lemma BrokenStreams(key: string, scalar: Scalar, rest: seq<Event>)
    ensures Run([], [MapKey(key)] + rest) == Output([], true)
    ensures Run([], [EndMap] + rest) == Output([], true) && Run([], [EndArray] + rest) == Output([], true)
    ensures Run([], [StartMap, ScalarValue(scalar)] + rest) == Output([PathEvent([], StartMap)], true)
    ensures Run([], [StartArray, MapKey(key)] + rest) == Output([PathEvent([], StartArray)], true)
  {
    assert ([StartMap, ScalarValue(scalar)] + rest)[1..] == [ScalarValue(scalar)] + rest;
    assert ([StartArray, MapKey(key)] + rest)[1..] == [MapKey(key)] + rest;
  }
}
