/**
 The benchmark scheduler: bounded concurrency under every completion order, trips in
 the middle of a run, and a CPU budget shared by the running tasks.
 */
module Scheduler {
  import opened Wrappers
  import opened CircuitBreakers
  import opened TaskObservations

  datatype Finished = Finished(index: nat, evaluation: Evaluation)

  // ---- What happened, as a trace -------------------------------------------

  datatype TaskEvent = Started(index: nat) | Completed(index: nat) | Cancelled(index: nat) | Trip

  /** Everything that happened so far, the latest event outermost. */
  datatype Trace = Nothing | Then(before: Trace, event: TaskEvent)

  function Running(trace: Trace): set<nat> {
    match trace
    case Nothing => {}
    case Then(before, Started(i)) => Running(before) + {i}
    case Then(before, Completed(i)) => Running(before) - {i}
    case Then(before, Cancelled(i)) => Running(before) - {i}
    case Then(before, Trip) => Running(before)
  }

  function StartedCount(trace: Trace): nat {
    match trace
    case Nothing => 0
    case Then(before, e) => StartedCount(before) + if e.Started? then 1 else 0
  }

  predicate Tripped(trace: Trace) {
    trace.Then? && (trace.event.Trip? || Tripped(trace.before))
  }

  /** Whether e may happen next: tasks start in input order, below the limit and not after a trip. */
  predicate Allowed(trace: Trace, e: TaskEvent, jobs: nat) {
    match e
    case Started(i) => i == StartedCount(trace) && |Running(trace)| < jobs && !Tripped(trace)
    case Completed(i) => i in Running(trace)
    case Cancelled(i) => i in Running(trace) && Tripped(trace)
    case Trip => !Tripped(trace)
  }

  predicate Disciplined(trace: Trace, jobs: nat) {
    trace.Then? ==> Disciplined(trace.before, jobs) && Allowed(trace.before, trace.event, jobs)
  }

  predicate IsPrefix(p: Trace, trace: Trace) {
    p == trace || (trace.Then? && IsPrefix(p, trace.before))
  }

  lemma {:induction false} RunningBounded(trace: Trace, jobs: nat)
    requires Disciplined(trace, jobs)
    ensures |Running(trace)| <= jobs
  {
    if trace.Then? {
      RunningBounded(trace.before, jobs);
      if trace.event.Completed? || trace.event.Cancelled? {
        assert |Running(trace.before) - {trace.event.index}| == |Running(trace.before)| - 1;
      }
    }
  }

  lemma {:induction false} PrefixDisciplined(p: Trace, trace: Trace, jobs: nat)
    requires Disciplined(trace, jobs) && IsPrefix(p, trace)
    ensures Disciplined(p, jobs)
    ensures Tripped(p) ==> Tripped(trace)
  {
    if p != trace {
      PrefixDisciplined(p, trace.before, jobs);
    }
  }

  /** At every moment the CPU shares of the running tasks fit the budget. */
  lemma CpuWithinBudget(p: Trace, trace: Trace, jobs: nat, budget: nat)
    requires Disciplined(trace, jobs) && jobs > 0 && IsPrefix(p, trace)
    ensures |Running(p)| <= jobs
    ensures |Running(p)| * (budget / jobs) <= budget
  {
    PrefixDisciplined(p, trace, jobs);
    RunningBounded(p, jobs);
    SharesFit(|Running(p)|, jobs, budget);
  }

  /** Once the breaker has tripped no further task is started. */
  lemma {:induction false} NothingStartsAfterTrip(p: Trace, trace: Trace, jobs: nat)
    requires Disciplined(trace, jobs) && IsPrefix(p, trace) && Tripped(p)
    ensures StartedCount(trace) == StartedCount(p)
  {
    if p != trace {
      NothingStartsAfterTrip(p, trace.before, jobs);
      PrefixDisciplined(p, trace.before, jobs);
    }
  }

  lemma SharesFit(running: nat, jobs: nat, budget: nat)
    requires 0 < jobs && running <= jobs
    ensures running * (budget / jobs) <= budget
  {
    var share := budget / jobs;
    assert budget == jobs * share + budget % jobs;
    Monotone(running, jobs, share);
  }

  lemma Monotone(a: nat, b: nat, c: nat)
    requires a <= b
    ensures a * c <= b * c
  {
  }

  // ---- The report is in input order ----------------------------------------

  function Indices(done: seq<Finished>): set<nat> {
    if done == [] then {} else Indices(done[..|done| - 1]) + {done[|done| - 1].index}
  }

  lemma {:induction false} IndicesAre(done: seq<Finished>)
    ensures forall i :: i in Indices(done) <==> exists k :: 0 <= k < |done| && done[k].index == i
  {
    if done != [] {
      var n := |done| - 1;
      IndicesAre(done[..n]);
      forall i | exists k :: 0 <= k < |done| && done[k].index == i
        ensures i in Indices(done)
      {
        var k :| 0 <= k < |done| && done[k].index == i;
        assert k < n ==> done[..n][k].index == i;
      }
    }
  }

  lemma IndicesAppend(done: seq<Finished>, f: Finished)
    ensures Indices(done + [f]) == Indices(done) + {f.index}
  {
    assert (done + [f])[..|done|] == done;
  }

  /** As many indices as entries means that no index occurs twice. */
  lemma {:induction false} CountedOnce(done: seq<Finished>)
    ensures |Indices(done)| <= |done|
    ensures |Indices(done)| == |done| ==> DistinctIndices(done)
  {
    if done != [] {
      var n := |done| - 1;
      CountedOnce(done[..n]);
      if |Indices(done)| == |done| {
        DistinctAppend(done[..n], done[n]);
        assert done == done[..n] + [done[n]];
      }
    }
  }

  lemma DistinctAppend(done: seq<Finished>, f: Finished)
    requires DistinctIndices(done) && f.index !in Indices(done)
    ensures DistinctIndices(done + [f])
  {
    IndicesAre(done);
  }

  predicate Increasing(done: seq<Finished>) {
    forall i, j :: 0 <= i < j < |done| ==> done[i].index < done[j].index
  }

  predicate DistinctIndices(done: seq<Finished>) {
    forall i, j :: 0 <= i < j < |done| ==> done[i].index != done[j].index
  }

  function InsertByIndex(f: Finished, sorted: seq<Finished>): seq<Finished> {
    if sorted == [] || f.index < sorted[0].index then [f] + sorted
    else [sorted[0]] + InsertByIndex(f, sorted[1..])
  }

  function SortByIndex(done: seq<Finished>): seq<Finished> {
    if done == [] then [] else InsertByIndex(done[0], SortByIndex(done[1..]))
  }

  lemma {:induction false} InsertPermutes(f: Finished, sorted: seq<Finished>)
    ensures multiset(InsertByIndex(f, sorted)) == multiset(sorted) + multiset{f}
  {
    if sorted != [] && f.index >= sorted[0].index {
      InsertPermutes(f, sorted[1..]);
      assert sorted == [sorted[0]] + sorted[1..];
    }
  }

  lemma InsertMembers(f: Finished, sorted: seq<Finished>, g: Finished)
    requires g in InsertByIndex(f, sorted)
    ensures g == f || g in sorted
  {
    InsertPermutes(f, sorted);
    assert g in multiset(InsertByIndex(f, sorted));
  }

  lemma {:induction false} InsertKeeps(f: Finished, sorted: seq<Finished>)
    requires Increasing(sorted) && forall g :: g in sorted ==> g.index != f.index
    ensures Increasing(InsertByIndex(f, sorted))
  {
    if sorted != [] && f.index >= sorted[0].index {
      var rest := sorted[1..];
      assert sorted[0] in sorted && forall g :: g in rest ==> g in sorted;
      InsertKeeps(f, rest);
      forall g | g in InsertByIndex(f, rest)
        ensures sorted[0].index < g.index
      {
        InsertMembers(f, rest, g);
      }
    }
  }

  lemma {:induction false} SortPermutes(done: seq<Finished>)
    ensures multiset(SortByIndex(done)) == multiset(done)
  {
    if done != [] {
      SortPermutes(done[1..]);
      InsertPermutes(done[0], SortByIndex(done[1..]));
      assert done == [done[0]] + done[1..];
    }
  }

  lemma {:induction false} SortKeeps(done: seq<Finished>)
    requires DistinctIndices(done)
    ensures Increasing(SortByIndex(done))
  {
    if done != [] {
      var rest := done[1..];
      SortKeeps(rest);
      SortPermutes(rest);
      forall g | g in SortByIndex(rest)
        ensures g.index != done[0].index
      {
        assert g in multiset(SortByIndex(rest));
        assert g in rest;
      }
      InsertKeeps(done[0], SortByIndex(rest));
    }
  }

  function Evaluations(done: seq<Finished>): seq<Evaluation> {
    seq(|done|, i requires 0 <= i < |done| => done[i].evaluation)
  }

  function UpTo(n: nat): (r: set<nat>)
    ensures forall i: nat :: i in r <==> i < n
  {
    if n == 0 then {} else UpTo(n - 1) + {n - 1}
  }

  predicate AllBelow(indices: set<nat>, m: nat) {
    forall i :: i in indices ==> i < m
  }

  lemma IndicesBelowLast(done: seq<Finished>)
    requires done != [] && Increasing(done)
    ensures AllBelow(Indices(done[..|done| - 1]), done[|done| - 1].index)
  {
    var k := |done| - 1;
    IndicesAre(done[..k]);
    forall i | i in Indices(done[..k])
      ensures i < done[k].index
    {
      var p :| 0 <= p < k && done[..k][p].index == i;
      assert done[p].index == i;
    }
  }

  lemma RangeWithoutMaximum(below: set<nat>, m: nat, n: nat)
    requires below + {m} == UpTo(n) && AllBelow(below, m)
    ensures n == m + 1 && below == UpTo(m)
  {
    assert m in UpTo(n);
    assert m + 1 in UpTo(n) <==> m + 1 < n;
    forall i: nat
      ensures i in below <==> i < m
    {
      assert i in UpTo(n) <==> i in below || i == m;
    }
  }

  /** Distinct increasing indices that fill a range are that range. */
  lemma {:induction false} IncreasingFillsRange(done: seq<Finished>, n: nat)
    requires Increasing(done) && Indices(done) == UpTo(n)
    ensures |done| == n
    ensures forall i :: 0 <= i < n ==> done[i].index == i
  {
    if done == [] {
      assert n > 0 ==> 0 in UpTo(n);
    } else {
      var k := |done| - 1;
      IndicesBelowLast(done);
      RangeWithoutMaximum(Indices(done[..k]), done[k].index, n);
      IncreasingFillsRange(done[..k], n - 1);
      assert forall i :: 0 <= i < k ==> done[i] == done[..k][i];
    }
  }

  // ---- The scheduler's state as a value ------------------------------------

  datatype Ledger = Ledger(nextIndex: nat, active: set<nat>, completed: seq<Finished>, cancelled: set<nat>,
                           trace: Trace)

  /** The started tasks 0..n are split disjointly into running, completed and cancelled ones. */
  predicate Partition(active: set<nat>, done: set<nat>, cancelled: set<nat>, n: nat) {
    active !! done && active !! cancelled && done !! cancelled && active + done + cancelled == UpTo(n)
  }

  /** Every completed task carries what it evaluated to. */
  predicate Reported(done: seq<Finished>, evaluate: nat -> Evaluation) {
    forall f :: f in done ==> f.evaluation == evaluate(f.index)
  }

  /** The trace agrees with the ledger's counters. */
  ghost predicate TraceMatches(l: Ledger, tripped: bool, jobs: nat) {
    && Disciplined(l.trace, jobs)
    && Running(l.trace) == l.active
    && StartedCount(l.trace) == l.nextIndex
    && (tripped <==> Tripped(l.trace))
  }

  ghost predicate Sound(l: Ledger, tripped: bool, jobs: nat, evaluate: nat -> Evaluation) {
    && TraceMatches(l, tripped, jobs)
    && |Indices(l.completed)| == |l.completed|
    && Reported(l.completed, evaluate)
    && Partition(l.active, Indices(l.completed), l.cancelled, l.nextIndex)
  }

  function StartNext(l: Ledger): Ledger {
    l.(nextIndex := l.nextIndex + 1, active := l.active + {l.nextIndex}, trace := Then(l.trace, Started(l.nextIndex)))
  }

  lemma PartitionStart(active: set<nat>, done: set<nat>, cancelled: set<nat>, n: nat)
    requires Partition(active, done, cancelled, n)
    ensures Partition(active + {n}, done, cancelled, n + 1)
  {
  }

  lemma PartitionMove(active: set<nat>, done: set<nat>, cancelled: set<nat>, n: nat, i: nat)
    requires Partition(active, done, cancelled, n) && i in active
    ensures i !in done && Partition(active - {i}, done + {i}, cancelled, n)
    ensures Partition(active - {i}, done, cancelled + {i}, n)
  {
  }

  lemma StartKeeps(l: Ledger, jobs: nat, evaluate: nat -> Evaluation)
    requires Sound(l, false, jobs, evaluate) && |l.active| < jobs
    ensures Sound(StartNext(l), false, jobs, evaluate)
  {
    PartitionStart(l.active, Indices(l.completed), l.cancelled, l.nextIndex);
  }

  function NoteTrip(l: Ledger): Ledger {
    l.(trace := Then(l.trace, Trip))
  }

  lemma TripKeeps(l: Ledger, jobs: nat, evaluate: nat -> Evaluation)
    requires Sound(l, false, jobs, evaluate)
    ensures Sound(NoteTrip(l), true, jobs, evaluate)
  {
  }

  function CollectTask(l: Ledger, i: nat, evaluate: nat -> Evaluation): Ledger {
    l.(completed := l.completed + [Finished(i, evaluate(i))], active := l.active - {i},
       trace := Then(l.trace, Completed(i)))
  }

  lemma CollectMatches(l: Ledger, i: nat, tripped: bool, jobs: nat, evaluate: nat -> Evaluation)
    requires TraceMatches(l, tripped, jobs) && i in l.active
    ensures TraceMatches(CollectTask(l, i, evaluate), tripped, jobs)
  {
  }

  lemma CollectKeeps(l: Ledger, i: nat, tripped: bool, jobs: nat, evaluate: nat -> Evaluation)
    requires Sound(l, tripped, jobs, evaluate) && i in l.active
    ensures Sound(CollectTask(l, i, evaluate), tripped, jobs, evaluate)
  {
    CollectMatches(l, i, tripped, jobs, evaluate);
    PartitionMove(l.active, Indices(l.completed), l.cancelled, l.nextIndex, i);
    IndicesAppend(l.completed, Finished(i, evaluate(i)));
    ReportedAppend(l.completed, i, evaluate);
  }

  lemma ReportedAppend(done: seq<Finished>, i: nat, evaluate: nat -> Evaluation)
    requires Reported(done, evaluate)
    ensures Reported(done + [Finished(i, evaluate(i))], evaluate)
  {
  }

  function CancelTask(l: Ledger, i: nat): Ledger {
    l.(active := l.active - {i}, cancelled := l.cancelled + {i}, trace := Then(l.trace, Cancelled(i)))
  }

  lemma CancelKeeps(l: Ledger, i: nat, jobs: nat, evaluate: nat -> Evaluation)
    requires Sound(l, true, jobs, evaluate) && i in l.active
    ensures Sound(CancelTask(l, i), true, jobs, evaluate)
  {
    PartitionMove(l.active, Indices(l.completed), l.cancelled, l.nextIndex, i);
  }

  lemma TripPersists(c: Config, log: seq<Event>, e: Event)
    ensures After(c, log).kind.Some? ==> After(c, log + [e]) == After(c, log)
  {
    if After(c, log).kind.Some? {
      TripIsFinal(c, log, [e]);
    }
  }

  /** At most as many tasks have completed as were started. */
  lemma CompletedWithinStarted(l: Ledger, jobs: nat, evaluate: nat -> Evaluation)
    requires Sound(l, false, jobs, evaluate)
    ensures |l.completed| <= l.nextIndex
  {
    SizeOfRange(l.nextIndex);
    assert Indices(l.completed) <= UpTo(l.nextIndex);
    SubsetIsSmaller(Indices(l.completed), UpTo(l.nextIndex));
  }

  lemma {:induction false} SizeOfRange(n: nat)
    ensures |UpTo(n)| == n
  {
    if n > 0 {
      SizeOfRange(n - 1);
    }
  }

  lemma SortedMembers(done: seq<Finished>)
    ensures forall f :: f in SortByIndex(done) <==> f in done
  {
    var sorted := SortByIndex(done);
    SortPermutes(done);
    forall f
      ensures f in sorted <==> f in done
    {
      assert f in sorted <==> f in multiset(sorted);
      assert f in done <==> f in multiset(done);
    }
  }

  lemma IndicesMonotone(a: seq<Finished>, b: seq<Finished>)
    requires forall f :: f in a ==> f in b
    ensures Indices(a) <= Indices(b)
  {
    IndicesAre(a);
    IndicesAre(b);
    forall i | i in Indices(a)
      ensures i in Indices(b)
    {
      var k :| 0 <= k < |a| && a[k].index == i;
      assert a[k] in b;
    }
  }

  /** Sorting the completed tasks of an undisturbed run lists every task once, in input order. */
  lemma SortedReport(done: seq<Finished>, n: nat, evaluate: nat -> Evaluation)
    requires |Indices(done)| == |done| && Indices(done) == UpTo(n)
    requires Reported(done, evaluate)
    ensures var report := Evaluations(SortByIndex(done));
            |report| == n && forall i :: 0 <= i < n ==> report[i] == evaluate(i)
  {
    var sorted := SortByIndex(done);
    CountedOnce(done);
    SortKeeps(done);
    SortedMembers(done);
    IndicesMonotone(done, sorted);
    IndicesMonotone(sorted, done);
    IncreasingFillsRange(sorted, n);
    forall i | 0 <= i < n
      ensures Evaluations(sorted)[i] == evaluate(i)
    {
      assert sorted[i] in done;
    }
  }

  lemma AllCompleted(l: Ledger, jobs: nat, evaluate: nat -> Evaluation)
    requires Sound(l, false, jobs, evaluate) && l.active == {} && l.cancelled == {}
    ensures Indices(l.completed) == UpTo(l.nextIndex)
  {
    assert {} + Indices(l.completed) + {} == Indices(l.completed);
  }

  lemma OneLess(active: set<nat>, done: set<nat>, i: nat)
    requires done <= active && i in active - done
    ensures done + {i} <= active && |active - (done + {i})| == |active - done| - 1
  {
    assert active - (done + {i}) == active - done - {i};
  }

  // ---- What the breaker makes of it ----------------------------------------

  /** What the tasks alone decide about a trip. */
  ghost predicate Decided(c: Config, evaluate: nat -> Evaluation, alarms: nat -> bool, total: nat, tripped: bool) {
    && (c.stopOnResource && (exists i: nat :: i < total && evaluate(i).resource) ==> tripped)
    && (0 < c.maxNetworkFailures <= total && AllFail(evaluate, total) ==> tripped)
    && ((c.stopOnResource ==> ResourcesHold(evaluate, alarms, total))
        && (c.maxNetworkFailures <= 0 || |Failing(evaluate, total)| < c.maxNetworkFailures)
        ==> !tripped)
  }

  /** The breaker has seen all completed tasks; so whether it tripped is decided by the tasks alone. */
  lemma TripDecided(c: Config, log: seq<Event>, l: Ledger, jobs: nat, evaluate: nat -> Evaluation, alarms: nat -> bool,
                    total: nat)
    requires Sound(l, After(c, log).kind.Some?, jobs, evaluate) && l.nextIndex <= total
    requires Truthful(log, evaluate, alarms) && Shows(log, Indices(l.completed))
    requires After(c, log).kind == None ==> Indices(l.completed) == UpTo(total)
    ensures Decided(c, evaluate, alarms, total, After(c, log).kind.Some?)
  {
    var tasks := Indices(l.completed);
    assert forall i :: i in tasks ==> i in UpTo(l.nextIndex);
    if After(c, log).kind.Some? {
      if (c.stopOnResource ==> ResourcesHold(evaluate, alarms, total))
         && (c.maxNetworkFailures <= 0 || |Failing(evaluate, total)| < c.maxNetworkFailures) {
        StaysClosed(c, log, tasks, evaluate, alarms, total);
      }
    } else {
      SizeOfRange(total);
      if i: nat :| c.stopOnResource && i < total && evaluate(i).resource {
        ExhaustionTrips(c, log, tasks, evaluate, alarms, i);
      }
      if 0 < c.maxNetworkFailures <= total && AllFail(evaluate, total) {
        FailuresTrip(c, log, tasks, evaluate, alarms);
      }
    }
  }

  // ---- One job -------------------------------------------------------------

  function FirstTasks(evaluate: nat -> Evaluation, n: nat): seq<Finished> {
    seq(n, i requires 0 <= i < n => Finished(i, evaluate(i)))
  }

  lemma {:induction false} FirstIndices(evaluate: nat -> Evaluation, n: nat)
    ensures Indices(FirstTasks(evaluate, n)) == UpTo(n)
  {
    if n > 0 {
      FirstIndices(evaluate, n - 1);
      assert FirstTasks(evaluate, n)[..n - 1] == FirstTasks(evaluate, n - 1);
    }
  }

  lemma FirstReported(evaluate: nat -> Evaluation, n: nat)
    ensures Reported(FirstTasks(evaluate, n), evaluate)
  {
  }

  lemma OnlyMember(items: set<nat>, x: nat)
    requires |items| <= 1 && x in items
    ensures items == {x}
  {
    SubsetIsSmaller({x}, items);
    assert |items - {x}| == |items| - 1;
  }

  /** With one job the running task is the one right behind the completed ones. */
  lemma RunningIsNext(active: set<nat>, k: nat, n: nat)
    requires active != {} && |active| <= 1 && active !! UpTo(k) && active + UpTo(k) == UpTo(n)
    ensures active == {k} && n == k + 1
  {
    var x := NonEmpty(active);
    OnlyMember(active, x);
    assert x !in UpTo(k);
    assert UpTo(k) + {x} == UpTo(n);
    RangeWithoutMaximum(UpTo(k), x, n);
    SizeOfRange(k);
    SizeOfRange(x);
  }

  lemma LastCollected(completed: seq<Finished>, evaluate: nat -> Evaluation, k: nat)
    requires |completed| == k + 1 && completed[..k] == FirstTasks(evaluate, k) && Reported(completed, evaluate)
    requires Indices(completed) == UpTo(k) + {k} && |Indices(completed)| == |completed|
    ensures completed == FirstTasks(evaluate, k + 1)
  {
    var last := completed[k];
    FirstIndices(evaluate, k);
    SizeOfRange(k);
    NewMember(UpTo(k), last.index, k, Indices(completed));
    assert last in completed && last == Finished(k, evaluate(k));
    assert completed == completed[..k] + [last];
    assert FirstTasks(evaluate, k + 1) == FirstTasks(evaluate, k) + [Finished(k, evaluate(k))];
  }

  lemma NewMember(items: set<nat>, x: nat, k: nat, all: set<nat>)
    requires all == items + {x} == items + {k} && |all| == |items| + 1
    ensures x == k
  {
    assert x !in items;
    assert x in items + {k};
  }

  lemma ActiveIsNext(l: Ledger, evaluate: nat -> Evaluation, k: nat)
    requires Sound(l, false, 1, evaluate) && l.cancelled == {} && l.active != {} && l.completed == FirstTasks(evaluate, k)
    ensures l.active == {k} && l.nextIndex == k + 1
  {
    FirstIndices(evaluate, k);
    RunningBounded(l.trace, 1);
    assert l.active + UpTo(k) == l.active + UpTo(k) + {};
    RunningIsNext(l.active, k, l.nextIndex);
  }

  /** One wait of a one-job run shows the breaker the next task, or nothing. */
  lemma NextIsShown(before: seq<Event>, log: seq<Event>, done: set<nat>, k: nat, evaluate: nat -> Evaluation,
                    alarms: nat -> bool)
    requires Told(before, log, done, evaluate, alarms) && done <= {k} && before == InOrder(evaluate, k)
    requires forall i: nat :: !alarms(i)
    ensures if done == {} then log == before else done == {k} && log == InOrder(evaluate, k + 1)
  {
    var news := log[|before|..];
    assert log == before + news;
    if done == {} {
      NoObservation(news, evaluate, alarms);
    } else {
      assert done == {k} by {
        var x := NonEmpty(done);
      }
      SingleObservation(news, k, evaluate, alarms);
    }
  }

  /**
   Tasks were completed one by one, each shown to the breaker before the next one started,
   and the breaker did not trip before the last of them.
   */
  ghost predicate InSequence(completed: seq<Finished>, log: seq<Event>, c: Config, evaluate: nat -> Evaluation, total: nat) {
    && completed == FirstTasks(evaluate, |completed|) && log == InOrder(evaluate, |completed|)
    && (After(c, log).kind.Some? ==>
          0 < |completed| <= total && After(c, InOrder(evaluate, |completed| - 1)).kind == None)
  }

  lemma SequenceStep(c: Config, l: Ledger, before: seq<Event>, log: seq<Event>, done: set<nat>, completed: seq<Finished>,
                     evaluate: nat -> Evaluation, alarms: nat -> bool, total: nat)
    requires InSequence(l.completed, before, c, evaluate, total) && After(c, before).kind == None
    requires l.active == {|l.completed|} && |l.completed| + 1 <= total && (forall i: nat :: !alarms(i))
    requires Told(before, log, done, evaluate, alarms) && done <= l.active
    requires done == {} ==> After(c, log).kind.Some?
    requires l.completed <= completed && |completed| == |l.completed| + |done| && Reported(completed, evaluate)
    requires Indices(completed) == Indices(l.completed) + done && |Indices(completed)| == |completed|
    ensures InSequence(completed, log, c, evaluate, total)
  {
    var k := |l.completed|;
    NextIsShown(before, log, done, k, evaluate, alarms);
    if done == {} {
      assert false;
    }
    FirstIndices(evaluate, k);
    LastCollected(completed, evaluate, k);
    assert |completed| == k + 1;
  }

  /** The report lists the first tasks, up to the first one that trips a breaker shown one after the other. */
  ghost predicate EndsAtFirstTrip(report: seq<Evaluation>, c: Config, evaluate: nat -> Evaluation, total: nat,
                                  tripped: bool)
  {
    && |report| <= total && (forall i :: 0 <= i < |report| ==> report[i] == evaluate(i))
    && if tripped then 0 < |report| && FirstTrip(c, InOrder(evaluate, total), |report| - 1)
       else |report| == total && NoTrip(c, InOrder(evaluate, total))
  }

  /** The report of such a run ends with the first task that trips. */
  lemma SequenceReport(c: Config, completed: seq<Finished>, log: seq<Event>, evaluate: nat -> Evaluation, total: nat)
    requires InSequence(completed, log, c, evaluate, total)
    requires After(c, log).kind == None ==> Indices(completed) == UpTo(total)
    ensures EndsAtFirstTrip(Evaluations(SortByIndex(completed)), c, evaluate, total, After(c, log).kind.Some?)
  {
    var k := |completed|;
    FirstIndices(evaluate, k);
    SizeOfRange(k);
    FirstReported(evaluate, k);
    SortedReport(completed, k, evaluate);
    if After(c, log).kind.Some? {
      StopsAtFirstTrip(c, evaluate, k, total);
    } else {
      SizeOfRange(total);
      ClosedMeansNoTrip(c, log);
    }
  }

  // ---- Collecting ----------------------------------------------------------

  /** From l to l' exactly the tasks in `moved` went from running to completed. */
  predicate Collected(l: Ledger, l': Ledger, moved: set<nat>) {
    && l.completed <= l'.completed && |l'.completed| == |l.completed| + |moved|
    && Indices(l'.completed) == Indices(l.completed) + moved && l'.active == l.active - moved
    && l'.cancelled == l.cancelled && l'.nextIndex == l.nextIndex
  }

  /** On the way from l to l', where the tasks in `pending` have still to be moved. */
  predicate Moving(l: Ledger, l': Ledger, done: set<nat>, pending: set<nat>) {
    && l.completed <= l'.completed && |l'.completed| + |pending| == |l.completed| + |done|
    && pending <= l'.active && l'.active - pending == l.active - done
    && l'.cancelled == l.cancelled && l'.nextIndex == l.nextIndex
  }

  lemma MovingNext(l: Ledger, l': Ledger, done: set<nat>, pending: set<nat>, i: nat, evaluate: nat -> Evaluation)
    requires Moving(l, l', done, pending) && i in pending
    ensures Moving(l, CollectTask(l', i, evaluate), done, pending - {i})
  {
  }

  /** What is no longer running was completed, as nothing else happened. */
  lemma RestIsCompleted(l: Ledger, l': Ledger, tripped: bool, jobs: nat, evaluate: nat -> Evaluation, moved: set<nat>)
    requires Sound(l, tripped, jobs, evaluate) && Sound(l', tripped, jobs, evaluate)
    requires Moving(l, l', moved, {}) && moved <= l.active
    ensures Collected(l, l', moved)
  {
    assert l'.active - {} == l'.active;
    SameUnion(l.active, Indices(l.completed), l.cancelled, l'.active, Indices(l'.completed), UpTo(l.nextIndex), moved);
  }

  lemma SameUnion(a: set<nat>, b: set<nat>, c: set<nat>, a': set<nat>, b': set<nat>, all: set<nat>, moved: set<nat>)
    requires a !! b && a !! c && b !! c && a + b + c == all && a' !! b' && a' !! c && b' !! c && a' + b' + c == all
    requires a' == a - moved && moved <= a
    ensures b' == b + moved
  {
    assert b == all - a - c && b' == all - a' - c;
  }

  // ---- The scheduler -------------------------------------------------------

  class BenchmarkRun {
    const taskCount: nat
    const jobs: nat
    const evaluate: nat -> Evaluation   // what each task would report
    const alarms: nat -> bool           // which tasks report exhausted resources while they run
    const breaker: CircuitBreaker
    var nextIndex: nat
    var active: set<nat>
    var completed: seq<Finished>
    ghost var cancelled: set<nat>
    ghost var trace: Trace

    ghost function View(): Ledger
      reads this
    {
      Ledger(nextIndex, active, completed, cancelled, trace)
    }

    ghost predicate Consistent()
      reads this, breaker
    {
      breaker.Valid() && jobs > 0 && nextIndex <= taskCount
      && Sound(View(), breaker.Tripped(), jobs, evaluate)
    }

    /** The breaker was shown the completed tasks and those in `done`, each once, and nobody else. */
    ghost predicate Informed(done: set<nat>)
      reads this, breaker
    {
      Truthful(breaker.log, evaluate, alarms) && Shows(breaker.log, Indices(completed) + done)
    }

    constructor (taskCount: nat, jobs: nat, evaluate: nat -> Evaluation, alarms: nat -> bool, config: Config)
      requires jobs > 0
      ensures Consistent() && Informed({}) && fresh(breaker)
      ensures this.taskCount == taskCount && this.jobs == jobs && this.evaluate == evaluate && this.alarms == alarms
      ensures breaker.config == config && breaker.log == [] && View() == Ledger(0, {}, [], {}, Nothing)
    {
      this.taskCount, this.jobs, this.evaluate, this.alarms := taskCount, jobs, evaluate, alarms;
      breaker := new CircuitBreaker(config);
      nextIndex, active, completed, trace, cancelled := 0, {}, [], Nothing, {};
    }

    method ScheduleAvailable()
      requires Consistent()
      modifies this
      ensures Consistent()
      ensures breaker.Tripped() || nextIndex == taskCount || |active| >= jobs
      ensures completed == old(completed) && cancelled == old(cancelled)
    {
      while !breaker.Tripped() && nextIndex < taskCount && |active| < jobs
        invariant Consistent() && completed == old(completed) && cancelled == old(cancelled)
      {
        StartOne();
      }
    }

    method StartOne()
      requires Consistent() && !breaker.Tripped() && nextIndex < taskCount && |active| < jobs
      modifies this`active, this`trace, this`nextIndex
      ensures Consistent() && View() == StartNext(old(View()))
    {
      StartKeeps(View(), jobs, evaluate);
      active := active + {nextIndex};
      trace := Then(trace, Started(nextIndex));
      nextIndex := nextIndex + 1;
      assert View() == StartNext(old(View()));
    }

    /** The breaker's last event may have tripped it; then the trace says so. */
    ghost method NoteTripIfNew(wasTripped: bool)
      requires breaker.Valid() && jobs > 0 && nextIndex <= taskCount && breaker.log != []
      requires Sound(View(), wasTripped, jobs, evaluate)
      requires wasTripped == After(breaker.config, breaker.log[..|breaker.log| - 1]).kind.Some?
      modifies this`trace
      ensures Consistent() && (wasTripped ==> breaker.Tripped())
    {
      var n := |breaker.log| - 1;
      TripPersists(breaker.config, breaker.log[..n], breaker.log[n]);
      assert breaker.log == breaker.log[..n] + [breaker.log[n]];
      if breaker.Tripped() && !wasTripped {
        TripKeeps(View(), jobs, evaluate);
        trace := Then(trace, Trip);
      }
    }

    /**
     Wait until a task has ended or the breaker has tripped. Which running tasks end, in which
     order, and when a task raises its alarms, is left open. The breaker is shown every task
     that ends, and no other.
     */
    method Wait() returns (done: set<nat>)
      requires Consistent() && Informed({}) && active != {}
      modifies this`trace, breaker
      ensures Consistent() && done <= active && (done != {} || breaker.Tripped())
      ensures Informed(done) && Told(old(breaker.log), breaker.log, done, evaluate, alarms)
    {
      done := {};
      ToldNothing(breaker.log, evaluate, alarms);
      var more: nat := *;
      while (more > 0 || (done == {} && !breaker.Tripped())) && active - done != {}
        invariant Consistent() && done <= active && Told(old(breaker.log), breaker.log, done, evaluate, alarms)
        decreases more + |active - done|, |active - done|
      {
        var i :| i in active - done;
        var ends: bool := *;
        OneLess(active, done, i);
        ends := ends || more == 0;
        Proceed(i, ends, old(breaker.log), done);
        done, more := if ends then done + {i} else done, if ends then more else more - 1;
      }
      InformedNow(old(breaker.log), done);
    }

    /** A running task ends, or raises an alarm if it is one that does. */
    method Proceed(i: nat, ends: bool, ghost before: seq<Event>, ghost done: set<nat>)
      requires Consistent() && i !in done && Told(before, breaker.log, done, evaluate, alarms)
      modifies this`trace, breaker
      ensures Consistent() && Told(before, breaker.log, if ends then done + {i} else done, evaluate, alarms)
      ensures breaker.log == old(breaker.log)
                             + if ends then [Observed(i, evaluate(i).resource, evaluate(i).network)]
                               else if alarms(i) then [Event.Alarm(i)] else []
    {
      if ends {
        ToldMore(before, breaker.log, done, Observed(i, evaluate(i).resource, evaluate(i).network), evaluate, alarms);
        End(i);
      } else if alarms(i) {
        ToldMore(before, breaker.log, done, Event.Alarm(i), evaluate, alarms);
        RaiseAlarm(i);
      }
    }

    ghost method InformedNow(before: seq<Event>, done: set<nat>)
      requires Consistent() && done <= active && Told(before, breaker.log, done, evaluate, alarms)
      requires Truthful(before, evaluate, alarms) && Shows(before, Indices(completed) + {})
      ensures Informed(done)
    {
      assert Indices(completed) + {} == Indices(completed);
      ToldInAll(before, breaker.log, Indices(completed), done, evaluate, alarms);
    }

    /** A running task ends and the breaker is shown its evaluation. */
    method End(i: nat)
      requires Consistent()
      modifies this`trace, breaker
      ensures Consistent()
      ensures breaker.log == old(breaker.log) + [Observed(i, evaluate(i).resource, evaluate(i).network)]
    {
      ghost var wasTripped := breaker.Tripped();
      var evaluation := evaluate(i);
      breaker.Observe(i, evaluation.resource, evaluation.network);
      NoteTripIfNew(wasTripped);
    }

    /** A running task reports exhausted resources. */
    method RaiseAlarm(i: nat)
      requires Consistent()
      modifies this`trace, breaker
      ensures Consistent() && breaker.log == old(breaker.log) + [Alarm(i)]
    {
      ghost var wasTripped := breaker.Tripped();
      breaker.RaiseAlarm(i);
      NoteTripIfNew(wasTripped);
    }

    /** Move ended tasks from the running ones to the completed ones, in whatever order. */
    method Collect(done: set<nat>)
      requires Consistent() && done <= active
      modifies this`active, this`completed, this`trace
      ensures Consistent() && Collected(old(View()), View(), done)
    {
      ghost var start := View();
      MoveAll(done);
      RestIsCompleted(start, View(), breaker.Tripped(), jobs, evaluate, done);
    }

    method MoveAll(done: set<nat>)
      requires Consistent() && done <= active
      modifies this`active, this`completed, this`trace
      ensures Consistent() && Moving(old(View()), View(), done, {})
    {
      var pending := done;
      while pending != {}
        invariant Consistent() && Moving(old(View()), View(), done, pending)
        decreases |pending|
      {
        var i :| i in pending;
        MovingNext(old(View()), View(), done, pending, i, evaluate);
        CollectOne(i);
        pending := pending - {i};
      }
    }

    method CollectOne(i: nat)
      requires Consistent() && i in active
      modifies this`active, this`completed, this`trace
      ensures Consistent() && View() == CollectTask(old(View()), i, evaluate)
    {
      CollectKeeps(View(), i, breaker.Tripped(), jobs, evaluate);
      MoveToCompleted(i);
    }

    method MoveToCompleted(i: nat)
      modifies this`active, this`completed, this`trace
      ensures View() == CollectTask(old(View()), i, evaluate)
    {
      completed := completed + [Finished(i, evaluate(i))];
      active := active - {i};
      trace := Then(trace, Completed(i));
    }

    /** Cancel what still runs after a trip. */
    method CancelActive()
      requires Consistent() && breaker.Tripped()
      modifies this`active, this`trace, this`cancelled
      ensures Consistent() && active == {} && completed == old(completed)
    {
      while active != {}
        invariant Consistent() && completed == old(completed)
        decreases |active|
      {
        var i :| i in active;
        CancelOne(i);
      }
    }

    method CancelOne(i: nat)
      requires Consistent() && breaker.Tripped() && i in active
      modifies this`active, this`trace, this`cancelled
      ensures Consistent() && View() == CancelTask(old(View()), i)
    {
      CancelKeeps(View(), i, jobs, evaluate);
      trace := Then(trace, Cancelled(i));
      cancelled := cancelled + {i};
      active := active - {i};
      assert View() == CancelTask(old(View()), i);
    }

    /** Nothing was cancelled, and no further task could be running. */
    ghost predicate Saturated()
      reads this
    {
      cancelled == {} && |completed| <= taskCount && (nextIndex == taskCount || |active| >= jobs)
    }

    /** With one job and no alarms the tasks run one by one. */
    ghost predicate OneByOne()
      reads this, breaker
    {
      jobs == 1 && (forall i: nat :: !alarms(i))
      ==> InSequence(completed, breaker.log, breaker.config, evaluate, taskCount)
    }

    ghost method StepOneByOne(l: Ledger, before: seq<Event>, done: set<nat>)
      requires Consistent() && Sound(l, false, jobs, evaluate) && l.cancelled == {} && l.active != {} && done <= l.active
      requires jobs == 1 && (forall i: nat :: !alarms(i))
               ==> InSequence(l.completed, before, breaker.config, evaluate, taskCount)
      requires l.nextIndex <= taskCount && After(breaker.config, before).kind == None
      requires Told(before, breaker.log, done, evaluate, alarms) && (done != {} || breaker.Tripped())
      requires Collected(l, View(), done)
      ensures OneByOne()
    {
      if jobs == 1 && forall i: nat :: !alarms(i) {
        ActiveIsNext(l, evaluate, |l.completed|);
        SequenceStep(breaker.config, l, before, breaker.log, done, completed, evaluate, alarms, taskCount);
      }
    }

    ghost method InformedAfter(l: Ledger, done: set<nat>)
      requires Truthful(breaker.log, evaluate, alarms) && Shows(breaker.log, Indices(l.completed) + done)
      requires Collected(l, View(), done)
      ensures Informed({})
    {
      assert Indices(completed) + {} == Indices(l.completed) + done;
    }

    /** One turn of the loop: wait, collect, then either cancel everything or schedule more. */
    method Round()
      requires Consistent() && Informed({}) && OneByOne() && !breaker.Tripped() && Saturated() && active != {}
      modifies this, breaker
      ensures Consistent() && Informed({}) && OneByOne()
      ensures if breaker.Tripped() then active == {} else Saturated() && |completed| > old(|completed|)
    {
      TakeEnded();
      if breaker.Tripped() {
        CancelActive();
      } else {
        Refill();
      }
    }

    method Refill()
      requires Consistent() && !breaker.Tripped() && cancelled == {}
      modifies this
      ensures Consistent() && Saturated() && completed == old(completed)
    {
      CompletedWithinStarted(View(), jobs, evaluate);
      ScheduleAvailable();
    }

    method TakeEnded()
      requires Consistent() && Informed({}) && OneByOne() && !breaker.Tripped() && cancelled == {} && active != {}
      modifies this`active, this`completed, this`trace, breaker
      ensures Consistent() && Informed({}) && OneByOne()
      ensures breaker.Tripped() || |completed| > old(|completed|)
    {
      ghost var start, before := View(), breaker.log;
      var done := Wait();
      CollectEnded(done, start, before);
    }

    method CollectEnded(done: set<nat>, ghost start: Ledger, ghost before: seq<Event>)
      requires Consistent() && Sound(start, false, jobs, evaluate) && start == View().(trace := start.trace)
      requires start.cancelled == {} && start.active != {} && done <= active && (done != {} || breaker.Tripped())
      requires jobs == 1 && (forall i: nat :: !alarms(i))
               ==> InSequence(start.completed, before, breaker.config, evaluate, taskCount)
      requires After(breaker.config, before).kind == None && Told(before, breaker.log, done, evaluate, alarms)
      requires Informed(done)
      modifies this`active, this`completed, this`trace
      ensures Consistent() && Informed({}) && OneByOne()
      ensures breaker.Tripped() || |completed| > |start.completed|
    {
      Collect(done);
      InformedAfter(start, done);
      StepOneByOne(start, before, done);
    }

    method Drain()
      requires Consistent() && Informed({}) && OneByOne() && !breaker.Tripped() && Saturated()
      modifies this, breaker
      ensures Consistent() && Informed({}) && OneByOne() && active == {}
      ensures !breaker.Tripped() ==> nextIndex == taskCount && cancelled == {}
    {
      while active != {}
        invariant Consistent() && Informed({}) && OneByOne()
        invariant if breaker.Tripped() then active == {} else Saturated()
        decreases if breaker.Tripped() then 0 else 1 + taskCount - |completed|
      {
        Round();
      }
    }

    /**
     The whole run. Every completion order and every moment of a trip is covered by `Wait`;
     the report lists completed tasks in input order, all of them if nothing tripped. The run
     trips when a task exhausts resources that are watched, or when all tasks fail and they
     reach the threshold; it does not when fewer tasks fail than the threshold and resources
     hold. With one job the report ends with the first task that trips.
     */
    method Execute() returns (report: seq<Evaluation>)
      requires Consistent() && View() == Ledger(0, {}, [], {}, Nothing) && breaker.log == []
      modifies this, breaker
      ensures Consistent() && Informed({}) && active == {}
      ensures report == Evaluations(SortByIndex(completed)) && Increasing(SortByIndex(completed))
      ensures !breaker.Tripped() ==> nextIndex == taskCount && cancelled == {}
      ensures !breaker.Tripped() ==> |report| == taskCount && forall i :: 0 <= i < taskCount ==> report[i] == evaluate(i)
      ensures Decided(breaker.config, evaluate, alarms, taskCount, breaker.Tripped())
      ensures jobs == 1 && (forall i: nat :: !alarms(i))
              ==> EndsAtFirstTrip(report, breaker.config, evaluate, taskCount, breaker.Tripped())
    {
      Begins();
      ScheduleAvailable();
      Drain();
      report := Evaluations(SortByIndex(completed));
      Concluded();
      ReportOneByOne();
    }

    /** Before the first task nothing has happened. */
    ghost method Begins()
      requires Consistent() && View() == Ledger(0, {}, [], {}, Nothing) && breaker.log == []
      ensures Informed({}) && OneByOne() && !breaker.Tripped()
    {
      assert !Tripped(Nothing);
      assert Indices(completed) + {} == {};
    }

    /** What holds once no task is running any more. */
    ghost method Concluded()
      requires Consistent() && Informed({}) && active == {}
      requires !breaker.Tripped() ==> nextIndex == taskCount && cancelled == {}
      ensures Increasing(SortByIndex(completed))
      ensures var report := Evaluations(SortByIndex(completed));
              !breaker.Tripped() ==>
                && Indices(completed) == UpTo(taskCount)
                && |report| == taskCount && forall i :: 0 <= i < taskCount ==> report[i] == evaluate(i)
      ensures Decided(breaker.config, evaluate, alarms, taskCount, breaker.Tripped())
    {
      CountedOnce(completed);
      SortKeeps(completed);
      if !breaker.Tripped() {
        AllCompleted(View(), jobs, evaluate);
        SortedReport(completed, taskCount, evaluate);
      }
      assert Indices(completed) + {} == Indices(completed);
      TripDecided(breaker.config, breaker.log, View(), jobs, evaluate, alarms, taskCount);
    }

    ghost method ReportOneByOne()
      requires Consistent() && OneByOne() && (!breaker.Tripped() ==> Indices(completed) == UpTo(taskCount))
      ensures jobs == 1 && (forall i: nat :: !alarms(i))
              ==> EndsAtFirstTrip(Evaluations(SortByIndex(completed)), breaker.config, evaluate, taskCount,
                                  breaker.Tripped())
    {
      if jobs == 1 && forall i: nat :: !alarms(i) {
        SequenceReport(breaker.config, completed, breaker.log, evaluate, taskCount);
      }
    }
  }
}
