/** Numbering and delivering the events of one run, under cancellation and sink failures. */
module EventPublishing {
  import opened EventLog

  // ---- The publisher -------------------------------------------------------

  /** How a dispatched delivery ends for the publisher. */
  datatype Ending =
    | Completed   // every sink handled the event
    | Raised      // some sink raised
    | CutShort    // a second cancellation ended the delivery itself

  /** A first cancellation only changes what the caller sees: the delivery still runs to its end. */
  datatype Attempt =
    | Unprepared                                    // the clock or the serialisation raised
    | Dispatch(ending: Ending, cancelled: bool)

  datatype PublishResult = Published(sequence: nat) | Cancelled | Failed | Rejected | Closed

  datatype Publisher = Publisher(next: nat, failed: bool)

  /** The sinks get to see an event. */
  predicate Dispatches(p: Publisher, a: Attempt) {
    !p.failed && a.Dispatch?
  }

  /** What the caller of a dispatched attempt gets. */
  function ResultOf(a: Attempt, number: nat): PublishResult
    requires a.Dispatch?
  {
    match a.ending
    case Completed => if a.cancelled then Cancelled else Published(number)
    case Raised => Failed
    case CutShort => Cancelled
  }

  function Publish(p: Publisher, a: Attempt): (Publisher, PublishResult) {
    if p.failed then (p, Closed)
    else if a.Unprepared? then (p, Rejected)
    else
      match a.ending
      case Completed => (p.(next := p.next + 1), ResultOf(a, p.next))
      case Raised => (p.(failed := true), ResultOf(a, p.next))
      case CutShort => (p, ResultOf(a, p.next))
  }

  /** A publisher with its history: each dispatched attempt, the number it handed to the sinks, its result. */
  datatype History = History(publisher: Publisher, dispatched: seq<Attempt>, handed: seq<nat>,
                             results: seq<PublishResult>)

  function Extend(h: History, a: Attempt): History {
    var (p, result) := Publish(h.publisher, a);
    if Dispatches(h.publisher, a)
    then History(p, h.dispatched + [a], h.handed + [h.publisher.next], h.results + [result])
    else h.(publisher := p)
  }

  /** All attempts on a new publisher whose first number is `first`. */
  function PublishAll(first: nat, attempts: seq<Attempt>): History {
    if attempts == [] then History(Publisher(first, false), [], [], [])
    else Extend(PublishAll(first, attempts[..|attempts| - 1]), attempts[|attempts| - 1])
  }

  predicate Completes(a: Attempt) {
    a.Dispatch? && a.ending == Completed
  }

  /** How many of the first n dispatched deliveries completed. */
  function Completions(dispatched: seq<Attempt>, n: nat): (c: nat)
    requires n <= |dispatched|
    ensures c <= n
  {
    if n == 0 then 0 else Completions(dispatched, n - 1) + if Completes(dispatched[n - 1]) then 1 else 0
  }

  lemma {:induction false} CompletionsOfPrefix(dispatched: seq<Attempt>, a: Attempt, n: nat)
    requires n <= |dispatched|
    ensures Completions(dispatched + [a], n) == Completions(dispatched, n)
  {
    if n > 0 {
      CompletionsOfPrefix(dispatched, a, n - 1);
    }
  }

  /** The k-th number handed out is the first one plus the deliveries completed before; its result follows. */
  predicate NumberedAt(first: nat, h: History, k: nat)
    requires k < |h.dispatched| == |h.handed| == |h.results|
  {
    && h.dispatched[k].Dispatch?
    && h.handed[k] == first + Completions(h.dispatched, k)
    && h.results[k] == ResultOf(h.dispatched[k], h.handed[k])
  }

  ghost predicate Numbered(first: nat, h: History) {
    var n := |h.dispatched|;
    && |h.handed| == n && |h.results| == n
    && h.publisher.next == first + Completions(h.dispatched, n)
    && forall k :: 0 <= k < n ==> NumberedAt(first, h, k)
  }

  lemma ExtendNumbered(first: nat, h: History, a: Attempt)
    requires Numbered(first, h)
    ensures Numbered(first, Extend(h, a))
  {
    if Dispatches(h.publisher, a) {
      var n, h' := |h.dispatched|, Extend(h, a);
      CompletionsOfPrefix(h.dispatched, a, n);
      assert h'.dispatched[n] == a;
      forall k | 0 <= k < n
        ensures NumberedAt(first, h', k)
      {
        assert NumberedAt(first, h, k);
        CompletionsOfPrefix(h.dispatched, a, k);
      }
      assert NumberedAt(first, h', n);
    } else {
      assert forall k :: 0 <= k < |h.dispatched| ==> NumberedAt(first, h, k) ==> NumberedAt(first, Extend(h, a), k);
    }
  }

  lemma {:induction false} AllNumbered(first: nat, attempts: seq<Attempt>)
    ensures Numbered(first, PublishAll(first, attempts))
  {
    if attempts != [] {
      AllNumbered(first, attempts[..|attempts| - 1]);
      ExtendNumbered(first, PublishAll(first, attempts[..|attempts| - 1]), attempts[|attempts| - 1]);
    }
  }

  predicate Raises(a: Attempt) {
    a.Dispatch? && a.ending == Raised
  }

  /** A failed delivery is the last one dispatched. */
  ghost predicate FailureLast(h: History) {
    && (forall k :: 0 <= k < |h.dispatched| - 1 ==> !Raises(h.dispatched[k]))
    && (h.publisher.failed <==> h.dispatched != [] && Raises(h.dispatched[|h.dispatched| - 1]))
  }

  lemma {:induction false} FailureIsLast(first: nat, attempts: seq<Attempt>)
    ensures FailureLast(PublishAll(first, attempts))
  {
    if attempts != [] {
      FailureIsLast(first, attempts[..|attempts| - 1]);
    }
  }

  /** Only what was attempted is dispatched. */
  lemma {:induction false} DispatchedAreAttempts(first: nat, attempts: seq<Attempt>, a: Attempt)
    requires a in PublishAll(first, attempts).dispatched
    ensures a in attempts && a.Dispatch?
  {
    var init := attempts[..|attempts| - 1];
    if a in PublishAll(first, init).dispatched {
      DispatchedAreAttempts(first, init, a);
    }
  }

  /** Nothing is dispatched after a failure: the history stands still. */
  lemma {:induction false} NothingAfterFailure(first: nat, attempts: seq<Attempt>, n: nat)
    requires n <= |attempts| && PublishAll(first, attempts[..n]).publisher.failed
    ensures PublishAll(first, attempts) == PublishAll(first, attempts[..n])
  {
    if n == |attempts| {
      assert attempts[..n] == attempts;
    } else {
      var init := attempts[..|attempts| - 1];
      assert init[..n] == attempts[..n];
      NothingAfterFailure(first, init, n);
    }
  }

  /** No delivery is ended by a second cancellation. */
  predicate SingleCancellations(attempts: seq<Attempt>) {
    forall i :: 0 <= i < |attempts| && attempts[i].Dispatch? ==> attempts[i].ending != CutShort
  }

  lemma {:induction false} AllCompleted(dispatched: seq<Attempt>, n: nat)
    requires n <= |dispatched|
    ensures Completions(dispatched, n) == n <==> forall k :: 0 <= k < n ==> Completes(dispatched[k])
  {
    if n > 0 {
      AllCompleted(dispatched, n - 1);
    }
  }

  predicate CutsShort(a: Attempt) {
    a.Dispatch? && a.ending == CutShort
  }

  ghost predicate CountsUp(first: nat, handed: seq<nat>) {
    forall k :: 0 <= k < |handed| ==> handed[k] == first + k
  }

  /** A number is the k-th one exactly when everything dispatched before it completed. */
  lemma NumberInPlace(first: nat, attempts: seq<Attempt>, k: nat)
    requires k < |PublishAll(first, attempts).dispatched|
    ensures var h := PublishAll(first, attempts);
            |h.handed| == |h.dispatched|
            && (h.handed[k] == first + k <==> forall j :: 0 <= j < k ==> Completes(h.dispatched[j]))
  {
    var h := PublishAll(first, attempts);
    AllNumbered(first, attempts);
    assert NumberedAt(first, h, k);
    AllCompleted(h.dispatched, k);
  }

  /** Everything before the last dispatched delivery was completed or cut short. */
  lemma EarlierEndings(first: nat, attempts: seq<Attempt>, k: nat)
    requires k < |PublishAll(first, attempts).dispatched| - 1
    ensures var a := PublishAll(first, attempts).dispatched[k];
            Completes(a) <==> !CutsShort(a)
  {
    var h := PublishAll(first, attempts);
    FailureIsLast(first, attempts);
    DispatchedAreAttempts(first, attempts, h.dispatched[k]);
    assert !Raises(h.dispatched[k]);
  }

  /**
   The numbers handed to the sinks count up, one per dispatched delivery, if and only if no
   delivery but the last one dispatched was cut short.
  */
  lemma HandedCountUpIff(first: nat, attempts: seq<Attempt>)
    ensures var h := PublishAll(first, attempts);
            |h.handed| == |h.dispatched|
            && (CountsUp(first, h.handed) <==> forall k :: 0 <= k < |h.dispatched| - 1 ==> !CutsShort(h.dispatched[k]))
  {
    var h := PublishAll(first, attempts);
    AllNumbered(first, attempts);
    forall k | 0 <= k < |h.dispatched| - 1
      ensures Completes(h.dispatched[k]) <==> !CutsShort(h.dispatched[k])
    {
      EarlierEndings(first, attempts, k);
    }
    forall k | 0 <= k < |h.dispatched|
      ensures h.handed[k] == first + k <==> forall j :: 0 <= j < k ==> Completes(h.dispatched[j])
    {
      NumberInPlace(first, attempts, k);
    }
    var last := |h.dispatched| - 1;
    if last >= 0 && CountsUp(first, h.handed) {
      assert h.handed[last] == first + last;
    }
  }

  /** Under single cancellations a dispatched delivery completes, or it fails and closes the publisher. */
  lemma SingleEnding(first: nat, attempts: seq<Attempt>, k: nat)
    requires SingleCancellations(attempts) && k < |PublishAll(first, attempts).dispatched|
    ensures var h := PublishAll(first, attempts);
            Completes(h.dispatched[k]) || (Raises(h.dispatched[k]) && k == |h.dispatched| - 1 && h.publisher.failed)
  {
    var h := PublishAll(first, attempts);
    DispatchedAreAttempts(first, attempts, h.dispatched[k]);
    FailureIsLast(first, attempts);
  }

  /**
   Under single cancellations and any sink failures: the k-th dispatched event has the k-th
   number, and when its delivery succeeds the caller is told that number, or that it was
   cancelled.
  */
  lemma NumbersCountUp(first: nat, attempts: seq<Attempt>, k: nat)
    requires SingleCancellations(attempts) && k < |PublishAll(first, attempts).dispatched|
    ensures var h := PublishAll(first, attempts);
            && |h.handed| == |h.results| == |h.dispatched| && h.handed[k] == first + k
            && h.results[k] == if !Completes(h.dispatched[k]) then Failed
                               else if h.dispatched[k].cancelled then Cancelled
                               else Published(first + k)
  {
    var h := PublishAll(first, attempts);
    AllNumbered(first, attempts);
    assert NumberedAt(first, h, k);
    SingleEnding(first, attempts, k);
    forall j | 0 <= j < k
      ensures Completes(h.dispatched[j])
    {
      SingleEnding(first, attempts, j);
    }
    NumberInPlace(first, attempts, k);
  }

  /** The next number follows the last one handed out, unless that delivery failed. */
  lemma NextNumber(first: nat, attempts: seq<Attempt>)
    requires SingleCancellations(attempts)
    ensures var h := PublishAll(first, attempts);
            h.publisher.next == first + |h.handed| - (if h.publisher.failed then 1 else 0)
  {
    var h := PublishAll(first, attempts);
    var n := |h.dispatched|;
    AllNumbered(first, attempts);
    FailureIsLast(first, attempts);
    forall k | 0 <= k < n
      ensures Completes(h.dispatched[k]) || (Raises(h.dispatched[k]) && k == n - 1 && h.publisher.failed)
    {
      SingleEnding(first, attempts, k);
    }
    AllCompleted(h.dispatched, if h.publisher.failed then n - 1 else n);
  }

  /** What is not dispatched changes nothing; the caller learns whether an earlier delivery failed. */
  lemma UndispatchedResult(first: nat, attempts: seq<Attempt>, a: Attempt)
    ensures var h := PublishAll(first, attempts);
            var closed := exists k :: 0 <= k < |h.dispatched| && Raises(h.dispatched[k]);
            && (Dispatches(h.publisher, a) <==> !closed && a.Dispatch?)
            && (!Dispatches(h.publisher, a) ==>
                  Publish(h.publisher, a) == (h.publisher, if closed then Closed else Rejected))
  {
    FailureIsLast(first, attempts);
  }

  /** A delivery that is cut short leaves its number to the next one. */
  lemma CutShortReusesNumber(p: Publisher, a: Attempt, b: Attempt)
    requires !p.failed && CutsShort(a) && Completes(b)
    ensures Publish(p, a) == (p, Cancelled)
    ensures Publish(Publish(p, a).0, b).0 == Publisher(p.next + 1, false)
    ensures !b.cancelled ==> Publish(Publish(p, a).0, b).1 == Published(p.next)
  {
  }

  // ---- A publisher and its log ---------------------------------------------

  /** What the sinks do with an event; `reachesLog` says that the log gets to see it. */
  datatype Delivery =
    | Handled                              // by every sink
    | SinkFails(reachesLog: bool)          // a sink before or after the log raises
    | EndedEarly(reachesLog: bool)         // a second cancellation ends the delivery

  datatype Request = BadDraft | Deliver(delivery: Delivery, cancelled: bool)

  /** A publisher and how many events its log holds. */
  datatype System = System(publisher: Publisher, stored: nat)

  /** The log's own check: a new event has to carry the number after the last one. */
  predicate Accepts(stored: nat, sequence: nat) {
    sequence == stored + 1
  }

  predicate ReachesLog(delivery: Delivery) {
    delivery.Handled? || delivery.reachesLog
  }

  predicate Delivers(s: System, r: Request) {
    !s.publisher.failed && r.Deliver?
  }

  /** The log refuses the event, which makes the delivery raise. */
  predicate CheckFires(s: System, r: Request) {
    Delivers(s, r) && ReachesLog(r.delivery) && !Accepts(s.stored, s.publisher.next)
  }

  /** How the request ends for the publisher. */
  function AttemptOf(s: System, r: Request): Attempt {
    match r
    case BadDraft => Unprepared
    case Deliver(delivery, cancelled) =>
      Dispatch(if CheckFires(s, r) then Raised
               else match delivery
                    case Handled => Completed
                    case SinkFails(_) => Raised
                    case EndedEarly(_) => CutShort,
               cancelled)
  }

  function Serve(s: System, r: Request): System {
    System(Publish(s.publisher, AttemptOf(s, r)).0,
           if Delivers(s, r) && ReachesLog(r.delivery) && !CheckFires(s, r) then s.stored + 1 else s.stored)
  }

  /** A publisher that continues a log of `stored` events. */
  function ServeAll(stored: nat, requests: seq<Request>): System {
    if requests == [] then System(Publisher(stored + 1, false), stored)
    else Serve(ServeAll(stored, requests[..|requests| - 1]), requests[|requests| - 1])
  }

  /** The attempts that the publisher makes of the requests. */
  function Attempts(stored: nat, requests: seq<Request>): (attempts: seq<Attempt>)
    ensures |attempts| == |requests|
  {
    if requests == [] then []
    else Attempts(stored, requests[..|requests| - 1])
         + [AttemptOf(ServeAll(stored, requests[..|requests| - 1]), requests[|requests| - 1])]
  }

  lemma {:induction false} SystemPublishes(stored: nat, requests: seq<Request>)
    ensures ServeAll(stored, requests).publisher == PublishAll(stored + 1, Attempts(stored, requests)).publisher
  {
    if requests != [] {
      var init := requests[..|requests| - 1];
      SystemPublishes(stored, init);
      assert Attempts(stored, requests)[..|init|] == Attempts(stored, init);
    }
  }

  predicate NoneEndedEarly(requests: seq<Request>) {
    forall i :: 0 <= i < |requests| && requests[i].Deliver? ==> !requests[i].delivery.EndedEarly?
  }

  predicate IsCut(r: Request) {
    r == Deliver(EndedEarly(true), true) || r == Deliver(EndedEarly(true), false)
  }

  predicate NoneCutAfterLogging(requests: seq<Request>) {
    forall i :: 0 <= i < |requests| ==> !IsCut(requests[i])
  }

  lemma {:induction false} SingleAttempts(stored: nat, requests: seq<Request>)
    requires NoneEndedEarly(requests)
    ensures SingleCancellations(Attempts(stored, requests))
  {
    if requests != [] {
      SingleAttempts(stored, requests[..|requests| - 1]);
    }
  }

  /** While the publisher is open and no delivery ended early, the log holds every number handed out. */
  lemma {:induction false} StoredIsHanded(stored: nat, requests: seq<Request>)
    requires NoneEndedEarly(requests) && !ServeAll(stored, requests).publisher.failed
    ensures ServeAll(stored, requests).stored
         == stored + |PublishAll(stored + 1, Attempts(stored, requests)).handed|
  {
    if requests != [] {
      var init := requests[..|requests| - 1];
      StoredIsHanded(stored, init);
      SystemPublishes(stored, init);
      assert Attempts(stored, requests)[..|init|] == Attempts(stored, init);
    }
  }

  /** Under single cancellations and any sink failures the log's sequence check never fires. */
  lemma CheckNeverFires(stored: nat, requests: seq<Request>, k: nat)
    requires NoneEndedEarly(requests) && k < |requests|
    ensures !CheckFires(ServeAll(stored, requests[..k]), requests[k])
  {
    var s := ServeAll(stored, requests[..k]);
    if !s.publisher.failed {
      SingleAttempts(stored, requests[..k]);
      NextNumber(stored + 1, Attempts(stored, requests[..k]));
      SystemPublishes(stored, requests[..k]);
      StoredIsHanded(stored, requests[..k]);
    }
  }

  lemma NoneCutSplit(requests: seq<Request>)
    requires requests != []
    ensures NoneCutAfterLogging(requests)
       <==> NoneCutAfterLogging(requests[..|requests| - 1]) && !IsCut(requests[|requests| - 1])
  {
    assert requests == requests[..|requests| - 1] + [requests[|requests| - 1]];
  }

  /** How far the publisher is ahead of its log changes only when a logged delivery is ended. */
  lemma ServeStep(s: System, r: Request)
    requires !Serve(s, r).publisher.failed
    ensures !s.publisher.failed
    ensures s.publisher.next == s.stored + 1 ==>
              Serve(s, r).publisher.next == if IsCut(r) then Serve(s, r).stored else Serve(s, r).stored + 1
    ensures s.publisher.next == s.stored ==> Serve(s, r).publisher.next == Serve(s, r).stored
  {
  }

  /** An open publisher is in step with its log, unless a logged delivery was ended: then it is one behind. */
  lemma {:induction false} StepOfRun(stored: nat, requests: seq<Request>)
    requires !ServeAll(stored, requests).publisher.failed
    ensures var s := ServeAll(stored, requests);
            s.publisher.next == if NoneCutAfterLogging(requests) then s.stored + 1 else s.stored
  {
    if requests != [] {
      var init, last := requests[..|requests| - 1], requests[|requests| - 1];
      ServeStep(ServeAll(stored, init), last);
      StepOfRun(stored, init);
      NoneCutSplit(requests);
    }
  }

  /** The check fires exactly when an earlier delivery was ended after it had been logged. */
  lemma CheckFiresIff(stored: nat, requests: seq<Request>, k: nat)
    requires k < |requests| && Delivers(ServeAll(stored, requests[..k]), requests[k])
    requires ReachesLog(requests[k].delivery)
    ensures CheckFires(ServeAll(stored, requests[..k]), requests[k]) <==> exists j :: 0 <= j < k && IsCut(requests[j])
  {
    StepOfRun(stored, requests[..k]);
  }

  /** It does happen: one delivery ended after logging makes the next event be refused. */
  lemma SecondCancellationDesynchronises(stored: nat)
    ensures var cut, next := Deliver(EndedEarly(true), true), Deliver(Handled, false);
            && CheckFires(ServeAll(stored, [cut]), next)
            && ServeAll(stored, [cut, next]).publisher.failed
            && ServeAll(stored, [cut, next]).stored == stored + 1
  {
    var cut, next := Deliver(EndedEarly(true), true), Deliver(Handled, false);
    assert [cut][..0] == [] && [cut, next][..1] == [cut];
    var start := ServeAll(stored, []);
    assert ServeAll(stored, [cut]) == Serve(start, cut);
    assert ServeAll(stored, [cut, next]) == Serve(Serve(start, cut), next);
  }

  /** The event file that holds what was published refuses the next event exactly when its check says so. */
  lemma FileAcceptsNext(codec: Codec, events: seq<Event>, s: System, e: Event, written: nat)
    requires GoodCodec(codec) && NumberedFrom(events, e.runId, 1) && |events| == s.stored
    requires e.sequence == s.publisher.next
    ensures Append(codec, LogOf(codec, events), e, written).1 != Refused <==> Accepts(s.stored, s.publisher.next)
  {
    AppendExtendsLog(codec, events, e, written);
  }

  // ---- The publisher in place ----------------------------------------------

  /** The sinks of a run: what they were handed, and how many events the log among them holds. */
  class Sinks {
    var handed: seq<nat>
    var stored: nat

    constructor (stored: nat)
      ensures this.stored == stored && handed == []
    {
      this.stored, handed := stored, [];
    }

    method Handle(sequence: nat, delivery: Delivery) returns (ending: Ending)
      modifies this
      ensures handed == old(handed) + [sequence]
      ensures var accepted := Accepts(old(stored), sequence);
              && stored == (if ReachesLog(delivery) && accepted then old(stored) + 1 else old(stored))
              && ending == if (ReachesLog(delivery) && !accepted) || delivery.SinkFails? then Raised
                           else if delivery.EndedEarly? then CutShort
                           else Completed
    {
      handed := handed + [sequence];
      if ReachesLog(delivery) {
        if sequence != stored + 1 {
          return Raised;
        }
        stored := stored + 1;
      }
      match delivery {
        case Handled => ending := Completed;
        case SinkFails(_) => ending := Raised;
        case EndedEarly(_) => ending := CutShort;
      }
    }
  }

  class EventPublisher {
    const sinks: Sinks
    var nextSequence: nat
    var failed: bool

    constructor (sinks: Sinks, initialSequence: nat)
      requires initialSequence >= 1
      ensures this.sinks == sinks && View() == Publisher(initialSequence, false)
    {
      this.sinks, nextSequence, failed := sinks, initialSequence, false;
    }

    ghost function View(): Publisher
      reads this
    {
      Publisher(nextSequence, failed)
    }

    ghost function Whole(): System
      reads this, sinks
    {
      System(View(), sinks.stored)
    }

    method Send(request: Request) returns (result: PublishResult)
      modifies this, sinks
      ensures (View(), result) == Publish(old(View()), AttemptOf(old(Whole()), request))
      ensures Whole() == Serve(old(Whole()), request)
      ensures sinks.handed == if Delivers(old(Whole()), request) then old(sinks.handed) + [old(nextSequence)]
                              else old(sinks.handed)
    {
      if failed {
        return Closed;
      }
      if request.BadDraft? {
        return Rejected;
      }
      var ending := sinks.Handle(nextSequence, request.delivery);
      match ending {
        case Raised =>
          failed := true;
          result := Failed;
        case CutShort =>
          result := Cancelled;
        case Completed =>
          result := if request.cancelled then Cancelled else Published(nextSequence);
          nextSequence := nextSequence + 1;
      }
    }
  }
}
