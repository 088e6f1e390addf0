/**
 JSON documents as trees, the event stream a basic JSON parser emits for them,
 and the reference meaning of a pointer path: resolve it in the tree.
 */
module JsonTree {
  import opened Wrappers
  import opened Decimal

  type Path = seq<string>

  datatype Kind = NullKind | BooleanKind | IntegerKind | NumberKind | StringKind | ArrayKind | ObjectKind

  /** Scalar events: `integer`, `double` and `number` differ only in name. */
  datatype ScalarEvent = NullEvent | BooleanEvent | IntegerEvent | DoubleEvent | NumberEvent | StringEvent

  /** `text` is the value written by Python's `str`, whose length the builder budgets. */
  datatype Scalar = Scalar(event: ScalarEvent, text: string)

  datatype Member = Member(key: string, value: Json)
  datatype Json =
    | Leaf(scalar: Scalar)
    | Array(items: seq<Json>)
    | Object(members: seq<Member>)

  datatype Event =
    | ScalarValue(scalar: Scalar)
    | StartMap
    | MapKey(key: string)
    | EndMap
    | StartArray
    | EndArray

  predicate IsValueStart(e: Event) {
    e.ScalarValue? || e.StartMap? || e.StartArray?
  }

  function KindOfEvent(e: Event): Kind
    requires IsValueStart(e)
  {
    match e
    case StartArray => ArrayKind
    case StartMap => ObjectKind
    case ScalarValue(s) =>
      match s.event
      case NullEvent => NullKind
      case BooleanEvent => BooleanKind
      case IntegerEvent => IntegerKind
      case DoubleEvent => NumberKind
      case NumberEvent => NumberKind
      case StringEvent => StringKind
  }

  // ---- Serialisation -------------------------------------------------------

  function Events(j: Json): seq<Event>
    decreases j, 1
  {
    match j
    case Leaf(s) => [ScalarValue(s)]
    case Array(items) => [StartArray] + ItemEvents(items) + [EndArray]
    case Object(members) => [StartMap] + MemberEvents(members) + [EndMap]
  }

  function ItemEvents(items: seq<Json>): seq<Event>
    decreases items, 0
  {
    if items == [] then [] else Events(items[0]) + ItemEvents(items[1..])
  }

  function MemberEvents(members: seq<Member>): seq<Event>
    decreases members, 0
  {
    if members == [] then []
    else [MapKey(members[0].key)] + Events(members[0].value) + MemberEvents(members[1..])
  }

  // ---- Size ----------------------------------------------------------------

  function EventCount(j: Json): nat
    decreases j, 1
  {
    match j
    case Leaf(_) => 1
    case Array(items) => 2 + ItemEventCount(items)
    case Object(members) => 2 + MemberEventCount(members)
  }

  function ItemEventCount(items: seq<Json>): nat
    decreases items, 0
  {
    if items == [] then 0 else EventCount(items[0]) + ItemEventCount(items[1..])
  }

  function MemberEventCount(members: seq<Member>): nat
    decreases members, 0
  {
    if members == [] then 0 else 1 + EventCount(members[0].value) + MemberEventCount(members[1..])
  }

  /** Characters of all scalars; object keys are not counted. */
  function ScalarChars(j: Json): nat
    decreases j, 1
  {
    match j
    case Leaf(s) => |s.text|
    case Array(items) => ItemChars(items)
    case Object(members) => MemberChars(members)
  }

  function ItemChars(items: seq<Json>): nat
    decreases items, 0
  {
    if items == [] then 0 else ScalarChars(items[0]) + ItemChars(items[1..])
  }

  function MemberChars(members: seq<Member>): nat
    decreases members, 0
  {
    if members == [] then 0 else ScalarChars(members[0].value) + MemberChars(members[1..])
  }

  // ---- The value a dictionary-building reader makes of a document ----------

  function Keys(members: seq<Member>): (keys: seq<string>)
    ensures |keys| == |members|
    ensures forall i :: 0 <= i < |members| ==> keys[i] == members[i].key
  {
    seq(|members|, i requires 0 <= i < |members| => members[i].key)
  }

  /** Dictionary assignment: an existing key keeps its place, a new one goes last. */
  function Put(members: seq<Member>, key: string, value: Json): seq<Member> {
    if members == [] then [Member(key, value)]
    else if members[0].key == key then [Member(key, value)] + members[1..]
    else [members[0]] + Put(members[1..], key, value)
  }

  function Canon(j: Json): Json
    decreases j, 1
  {
    match j
    case Leaf(_) => j
    case Array(items) => Array(CanonItems(items))
    case Object(members) => Object(PutAll([], members))
  }

  function CanonItems(items: seq<Json>): (r: seq<Json>)
    ensures |r| == |items|
    decreases items, 0
  {
    if items == [] then [] else [Canon(items[0])] + CanonItems(items[1..])
  }

  function PutAll(built: seq<Member>, members: seq<Member>): seq<Member>
    decreases members, 0
  {
    if members == [] then built
    else PutAll(Put(built, members[0].key, Canon(members[0].value)), members[1..])
  }

  predicate UniqueKeys(j: Json)
    decreases j, 1
  {
    match j
    case Leaf(_) => true
    case Array(items) => UniqueInItems(items)
    case Object(members) => UniqueInMembers(members)
  }

  predicate UniqueInItems(items: seq<Json>)
    decreases items, 0
  {
    items != [] ==> UniqueKeys(items[0]) && UniqueInItems(items[1..])
  }

  predicate UniqueInMembers(members: seq<Member>)
    decreases members, 0
  {
    members != [] ==>
      && UniqueKeys(members[0].value)
      && members[0].key !in Keys(members[1..])
      && UniqueInMembers(members[1..])
  }

  lemma {:induction false} PutNewKey(members: seq<Member>, key: string, value: Json)
    requires key !in Keys(members)
    ensures Put(members, key, value) == members + [Member(key, value)]
  {
    if members != [] {
      assert Keys(members)[0] == members[0].key;
      forall i | 0 <= i < |members| - 1
        ensures Keys(members[1..])[i] != key
      {
        assert Keys(members)[i + 1] == members[1..][i].key;
      }
      PutNewKey(members[1..], key, value);
    }
  }

  lemma KeysAppend(members: seq<Member>, m: Member)
    ensures Keys(members + [m]) == Keys(members) + [m.key]
  {
  }

  /** With unique keys the dictionaries built are the document itself. */
  lemma {:induction false} CanonIsIdentity(j: Json)
    requires UniqueKeys(j)
    ensures Canon(j) == j
    decreases j, 1
  {
    match j
    case Leaf(_) =>
    case Array(items) => CanonItemsIsIdentity(items);
    case Object(members) => PutAllAppends([], members);
  }

  lemma {:induction false} CanonItemsIsIdentity(items: seq<Json>)
    requires UniqueInItems(items)
    ensures CanonItems(items) == items
    decreases items, 0
  {
    if items != [] {
      CanonIsIdentity(items[0]);
      CanonItemsIsIdentity(items[1..]);
    }
  }

  predicate Disjoint(members: seq<Member>, built: seq<Member>) {
    forall k :: k in Keys(members) ==> k !in Keys(built)
  }

  /** Moving the first of distinct members over keeps the two lists of keys apart. */
  lemma DisjointStep(built: seq<Member>, members: seq<Member>)
    requires members != [] && UniqueInMembers(members) && Disjoint(members, built)
    ensures members[0].key !in Keys(built)
    ensures Disjoint(members[1..], built + [members[0]])
  {
    assert Keys(members)[0] == members[0].key;
    assert Keys(members) == [members[0].key] + Keys(members[1..]);
    KeysAppend(built, members[0]);
  }

  lemma {:induction false} PutAllAppends(built: seq<Member>, members: seq<Member>)
    requires UniqueInMembers(members) && Disjoint(members, built)
    ensures PutAll(built, members) == built + members
    decreases members, 0
  {
    if members == [] {
      assert built + members == built;
    } else {
      var m := members[0];
      CanonIsIdentity(m.value);
      DisjointStep(built, members);
      PutNewKey(built, m.key, m.value);
      PutAllAppends(built + [m], members[1..]);
      assert built + [m] + members[1..] == built + members;
    }
  }

  // ---- Reference meaning of a path -----------------------------------------

  /** Which values a query accepts at its path. */
  datatype Want = AnyValue | AnObject | AnArray

  predicate Accepts(w: Want, j: Json) {
    match w
    case AnyValue => true
    case AnObject => j.Object?
    case AnArray => j.Array?
  }

  /** Evaluation of a path as section 4 of RFC 6901 defines it. */
  function Resolve(j: Json, t: Path): Option<Json>
    decreases t
  {
    if t == [] then Some(j)
    else
      match j
      case Leaf(_) => None
      case Array(items) =>
        (match ArrayIndex(t[0])
         case Some(i) => if i < |items| then Resolve(items[i], t[1..]) else None
         case None => None)
      case Object(members) =>
        (match MemberNamed(members, t[0])
         case Some(v) => Resolve(v, t[1..])
         case None => None)
  }

  function MemberNamed(members: seq<Member>, key: string): Option<Json> {
    if members == [] then None
    else if members[0].key == key then Some(members[0].value)
    else MemberNamed(members[1..], key)
  }

  /**
   First value in document order that sits at path `t` and is acceptable. Keys may
   repeat: when the first branch under a repeated key fails, later ones are tried.
   */
  function FirstAt(j: Json, t: Path, w: Want): Option<Json>
    decreases j, 1
  {
    if t == [] then (if Accepts(w, j) then Some(j) else None)
    else
      match j
      case Leaf(_) => None
      case Array(items) => FirstInItems(items, 0, t, w)
      case Object(members) => FirstInMembers(members, t, w)
  }

  function FirstInItems(items: seq<Json>, index: nat, t: Path, w: Want): Option<Json>
    requires t != []
    decreases items, 0
  {
    if items == [] then None
    else
      var here := if ToText(index) == t[0] then FirstAt(items[0], t[1..], w) else None;
      if here.Some? then here else FirstInItems(items[1..], index + 1, t, w)
  }

  function FirstInMembers(members: seq<Member>, t: Path, w: Want): Option<Json>
    requires t != []
    decreases members, 0
  {
    if members == [] then None
    else
      var here := if members[0].key == t[0] then FirstAt(members[0].value, t[1..], w) else None;
      if here.Some? then here else FirstInMembers(members[1..], t, w)
  }

  function Acceptable(found: Option<Json>, w: Want): Option<Json> {
    if found.Some? && Accepts(w, found.value) then found else None
  }

  /** With unique keys, first-in-document-order is RFC 6901 evaluation. */
  lemma {:induction false} FirstAtIsResolve(j: Json, t: Path, w: Want)
    requires UniqueKeys(j)
    ensures FirstAt(j, t, w) == Acceptable(Resolve(j, t), w)
    decreases j, 1
  {
    if t != [] {
      match j
      case Leaf(_) =>
      case Array(items) =>
        FirstInItemsIsIndexed(items, 0, t, w);
      case Object(members) =>
        FirstInMembersIsNamed(members, t, w);
    }
  }

  lemma {:induction false} FirstInItemsIsIndexed(items: seq<Json>, index: nat, t: Path, w: Want)
    requires t != [] && UniqueInItems(items)
    ensures FirstInItems(items, index, t, w) ==
            match ArrayIndex(t[0])
            case Some(i) => if index <= i < index + |items|
                            then Acceptable(Resolve(items[i - index], t[1..]), w) else None
            case None => None
    decreases items, 0
  {
    if items != [] {
      FirstAtIsResolve(items[0], t[1..], w);
      FirstInItemsIsIndexed(items[1..], index + 1, t, w);
      IndexOfText(index);
      if ArrayIndex(t[0]) == Some(index) {
        TextOfIndex(t[0]);
      }
    }
  }

  lemma {:induction false} FirstInMembersIsNamed(members: seq<Member>, t: Path, w: Want)
    requires t != [] && UniqueInMembers(members)
    ensures FirstInMembers(members, t, w) ==
            match MemberNamed(members, t[0])
            case Some(v) => Acceptable(Resolve(v, t[1..]), w)
            case None => None
    decreases members, 0
  {
    if members != [] {
      FirstAtIsResolve(members[0].value, t[1..], w);
      FirstInMembersIsNamed(members[1..], t, w);
      if members[0].key == t[0] {
        AbsentName(members[1..], t[0]);
      }
    }
  }

  lemma {:induction false} AbsentName(members: seq<Member>, key: string)
    requires key !in Keys(members)
    ensures MemberNamed(members, key) == None
  {
    if members != [] {
      assert Keys(members)[0] == members[0].key;
      forall i | 0 <= i < |members| - 1
        ensures Keys(members[1..])[i] != key
      {
        assert Keys(members)[i + 1] == members[1..][i].key;
      }
      AbsentName(members[1..], key);
    }
  }

  // ---- Repeated keys -------------------------------------------------------

  /** Dictionary assignment: the key has the new value, every other key the one it had. */
  lemma {:induction false} PutLookup(members: seq<Member>, key: string, value: Json, other: string)
    ensures MemberNamed(Put(members, key, value), other) == if other == key then Some(value) else MemberNamed(members, other)
  {
    if members != [] && members[0].key != key {
      PutLookup(members[1..], key, value, other);
      assert Put(members, key, value)[1..] == Put(members[1..], key, value);
    }
  }

  lemma KeysCons(m: Member, members: seq<Member>)
    ensures Keys([m] + members) == [m.key] + Keys(members)
  {
  }

  /** Assignment keeps the order of keys and puts a new one last. */
  lemma {:induction false} PutKeys(members: seq<Member>, key: string, value: Json)
    ensures Keys(Put(members, key, value)) == if key in Keys(members) then Keys(members) else Keys(members) + [key]
  {
    if members != [] {
      var first, rest := members[0], members[1..];
      KeysCons(first, rest);
      assert members == [first] + rest;
      if first.key == key {
        KeysCons(Member(key, value), rest);
      } else {
        PutKeys(rest, key, value);
        KeysCons(first, Put(rest, key, value));
      }
    }
  }

  /** The last member of a name. */
  function LastNamed(members: seq<Member>, key: string): Option<Json> {
    if members == [] then None
    else if members[|members| - 1].key == key then Some(members[|members| - 1].value)
    else LastNamed(members[..|members| - 1], key)
  }

  lemma {:induction false} LastNamedCons(m: Member, members: seq<Member>, key: string)
    ensures LastNamed([m] + members, key)
         == if LastNamed(members, key).Some? then LastNamed(members, key) else if m.key == key then Some(m.value) else None
  {
    if members == [] {
      assert ([m] + members)[..0] == [];
    } else {
      var init := members[..|members| - 1];
      assert ([m] + members)[..|members|] == [m] + init;
      LastNamedCons(m, init, key);
    }
  }

  /** In a rebuilt object the last of several members with the same key wins. */
  lemma {:induction false} LastMemberWins(built: seq<Member>, members: seq<Member>, key: string)
    ensures MemberNamed(PutAll(built, members), key)
         == match LastNamed(members, key) case Some(v) => Some(Canon(v)) case None => MemberNamed(built, key)
    decreases members
  {
    if members != [] {
      var m := members[0];
      LastMemberWins(Put(built, m.key, Canon(m.value)), members[1..], key);
      PutLookup(built, m.key, Canon(m.value), key);
      LastNamedCons(m, members[1..], key);
      assert members == [m] + members[1..];
    }
  }

  /** The kinds reported for values; every number but an integer is a plain number. */
  lemma KindsOfEvents(text: string)
    ensures KindOfEvent(StartArray) == ArrayKind && KindOfEvent(StartMap) == ObjectKind
    ensures KindOfEvent(ScalarValue(Scalar(NullEvent, text))) == NullKind
    ensures KindOfEvent(ScalarValue(Scalar(BooleanEvent, text))) == BooleanKind
    ensures KindOfEvent(ScalarValue(Scalar(IntegerEvent, text))) == IntegerKind
    ensures KindOfEvent(ScalarValue(Scalar(DoubleEvent, text))) == NumberKind
    ensures KindOfEvent(ScalarValue(Scalar(NumberEvent, text))) == NumberKind
    ensures KindOfEvent(ScalarValue(Scalar(StringEvent, text))) == StringKind
  {
  }
}
