/** What the circuit breaker is shown of the benchmark's tasks, and when that trips it. */
module TaskObservations {
  import opened Wrappers
  import opened CircuitBreakers

  datatype Evaluation = Evaluation(resource: bool, network: bool, score: int)

  /** The tasks whose evaluation was shown to the breaker, in that order. */
  function ObservedTasks(log: seq<Event>): seq<nat> {
    if log == [] then []
    else ObservedTasks(log[..|log| - 1]) + match log[|log| - 1]
                                           case Observed(task, _, _) => [task]
                                           case Alarm(_) => []
  }

  /** An event tells what its task evaluates to; alarms come only from tasks that raise them. */
  predicate TruthfulEvent(e: Event, evaluate: nat -> Evaluation, alarms: nat -> bool) {
    match e
    case Observed(task, resource, network) => resource == evaluate(task).resource && network == evaluate(task).network
    case Alarm(task) => alarms(task)
  }

  predicate Truthful(log: seq<Event>, evaluate: nat -> Evaluation, alarms: nat -> bool) {
    forall k :: 0 <= k < |log| ==> TruthfulEvent(log[k], evaluate, alarms)
  }

  /** The log shows every task of `tasks` once and no other. */
  predicate Shows(log: seq<Event>, tasks: set<nat>) {
    multiset(ObservedTasks(log)) == multiset(tasks)
  }

  lemma ObservedAppend(log: seq<Event>, e: Event)
    ensures ObservedTasks(log + [e]) == ObservedTasks(log) + if e.Observed? then [e.task] else []
  {
    assert (log + [e])[..|log|] == log;
  }

  lemma {:induction false} ObservedConcat(a: seq<Event>, b: seq<Event>)
    ensures ObservedTasks(a + b) == ObservedTasks(a) + ObservedTasks(b)
    decreases |b|
  {
    if b == [] {
      assert a + b == a;
    } else {
      var m := |b| - 1;
      ObservedConcat(a, b[..m]);
      assert (a + b)[..|a + b| - 1] == a + b[..m];
    }
  }

  /** One more task is shown, or an alarm goes off. */
  lemma ShowsAppend(log: seq<Event>, tasks: set<nat>, e: Event)
    requires Shows(log, tasks) && (e.Observed? ==> e.task !in tasks)
    ensures Shows(log + [e], if e.Observed? then tasks + {e.task} else tasks)
  {
    ObservedAppend(log, e);
    if e.Observed? {
      assert multiset(tasks + {e.task}) == multiset(tasks) + multiset{e.task};
    }
  }

  /** What was shown before and what is shown since add up. */
  lemma ShowsConcat(a: seq<Event>, b: seq<Event>, before: set<nat>, since: set<nat>)
    requires Shows(a, before) && Shows(b, since) && before !! since
    ensures Shows(a + b, before + since)
  {
    ObservedConcat(a, b);
    assert multiset(before + since) == multiset(before) + multiset(since);
  }

  /** Since `before` the breaker was shown the tasks in `done`, each once, and nobody else. */
  ghost predicate Told(before: seq<Event>, log: seq<Event>, done: set<nat>, evaluate: nat -> Evaluation,
                       alarms: nat -> bool)
  {
    before <= log && Truthful(log[|before|..], evaluate, alarms) && Shows(log[|before|..], done)
  }

  lemma TruthfulAppend(log: seq<Event>, e: Event, evaluate: nat -> Evaluation, alarms: nat -> bool)
    requires Truthful(log, evaluate, alarms) && TruthfulEvent(e, evaluate, alarms)
    ensures Truthful(log + [e], evaluate, alarms)
  {
  }

  lemma ToldMore(before: seq<Event>, log: seq<Event>, done: set<nat>, e: Event, evaluate: nat -> Evaluation,
                 alarms: nat -> bool)
    requires Told(before, log, done, evaluate, alarms)
    requires TruthfulEvent(e, evaluate, alarms) && (e.Observed? ==> e.task !in done)
    ensures Told(before, log + [e], if e.Observed? then done + {e.task} else done, evaluate, alarms)
  {
    var news, done' := log[|before|..], if e.Observed? then done + {e.task} else done;
    assert (log + [e])[|before|..] == news + [e];
    TruthfulAppend(news, e, evaluate, alarms);
    ShowsAppend(news, done, e);
    assert Shows(news + [e], done');
  }

  lemma ToldNothing(log: seq<Event>, evaluate: nat -> Evaluation, alarms: nat -> bool)
    ensures Told(log, log, {}, evaluate, alarms)
  {
    assert log[|log|..] == [];
  }

  lemma ToldInAll(before: seq<Event>, log: seq<Event>, shown: set<nat>, done: set<nat>, evaluate: nat -> Evaluation,
                  alarms: nat -> bool)
    requires Truthful(before, evaluate, alarms) && Shows(before, shown)
    requires Told(before, log, done, evaluate, alarms) && shown !! done
    ensures Truthful(log, evaluate, alarms) && Shows(log, shown + done)
  {
    var news := log[|before|..];
    ShowsConcat(before, news, shown, done);
    assert log == before + news;
    forall k | 0 <= k < |log|
      ensures TruthfulEvent(log[k], evaluate, alarms)
    {
      if k < |before| {
        assert log[k] == before[k];
      } else {
        assert log[k] == news[k - |before|];
      }
    }
  }

  lemma {:induction false} ObservedIsLogged(log: seq<Event>, task: nat) returns (k: nat)
    requires task in ObservedTasks(log)
    ensures k < |log| && log[k].Observed? && log[k].task == task
  {
    var n := |log| - 1;
    if log[n].Observed? && log[n].task == task {
      k := n;
    } else {
      assert task in ObservedTasks(log[..n]);
      k := ObservedIsLogged(log[..n], task);
    }
  }

  lemma ShownIsLogged(log: seq<Event>, tasks: set<nat>, task: nat) returns (k: nat)
    requires Shows(log, tasks) && task in tasks
    ensures k < |log| && log[k].Observed? && log[k].task == task
  {
    assert task in multiset(tasks);
    assert task in multiset(ObservedTasks(log));
    k := ObservedIsLogged(log, task);
  }

  lemma {:induction false} LoggedIsObserved(log: seq<Event>, k: nat)
    requires k < |log| && log[k].Observed?
    ensures log[k].task in ObservedTasks(log)
  {
    if k < |log| - 1 {
      LoggedIsObserved(log[..|log| - 1], k);
    }
  }

  lemma LoggedIsShown(log: seq<Event>, tasks: set<nat>, k: nat)
    requires Shows(log, tasks) && k < |log| && log[k].Observed?
    ensures log[k].task in tasks
  {
    LoggedIsObserved(log, k);
    assert log[k].task in multiset(ObservedTasks(log));
    assert log[k].task in multiset(tasks);
  }

  // ---- When the breaker trips ----------------------------------------------

  predicate AllFail(evaluate: nat -> Evaluation, n: nat) {
    forall i: nat :: i < n ==> evaluate(i).network
  }

  /** The first n tasks that end in a network failure. */
  function Failing(evaluate: nat -> Evaluation, n: nat): set<nat> {
    set i: nat | i < n && evaluate(i).network
  }

  /** No task below n exhausts resources, and none raises an alarm. */
  ghost predicate ResourcesHold(evaluate: nat -> Evaluation, alarms: nat -> bool, n: nat) {
    (forall i: nat :: i < n ==> !evaluate(i).resource) && forall i: nat :: !alarms(i)
  }

  lemma ClosedMeansNoTrip(c: Config, log: seq<Event>)
    ensures After(c, log).kind == None <==> NoTrip(c, log)
  {
    BreakerMeaning(c, log);
    if !NoTrip(c, log) {
      var k: nat :| FirstTrip(c, log, k);
      assert After(c, log).kind.Some?;
    }
  }

  /** A shown task that exhausted resources trips the breaker that watches for it. */
  lemma ExhaustionTrips(c: Config, log: seq<Event>, tasks: set<nat>, evaluate: nat -> Evaluation, alarms: nat -> bool,
                        i: nat)
    requires Shows(log, tasks) && Truthful(log, evaluate, alarms)
    requires c.stopOnResource && i in tasks && evaluate(i).resource
    ensures After(c, log).kind.Some?
  {
    var k := ShownIsLogged(log, tasks, i);
    assert TruthfulEvent(log[k], evaluate, alarms);
    assert TripsAt(c, log, k);
    ClosedMeansNoTrip(c, log);
  }

  lemma {:induction false} RunOfAll(log: seq<Event>, n: nat)
    requires n <= |log| && forall k :: 0 <= k < n && log[k].Observed? ==> log[k].network
    ensures NetworkRun(log, n) == |ObservedTasks(log[..n])|
  {
    if n > 0 {
      RunOfAll(log, n - 1);
      assert log[..n][..n - 1] == log[..n - 1];
    }
  }

  lemma ShownCount(log: seq<Event>, tasks: set<nat>)
    requires Shows(log, tasks)
    ensures |ObservedTasks(log)| == |tasks|
  {
    assert |multiset(ObservedTasks(log))| == |multiset(tasks)|;
  }

  /** As many shown failures as the threshold trip the breaker when nothing else was shown. */
  lemma FailuresTrip(c: Config, log: seq<Event>, tasks: set<nat>, evaluate: nat -> Evaluation, alarms: nat -> bool)
    requires Shows(log, tasks) && Truthful(log, evaluate, alarms)
    requires 0 < c.maxNetworkFailures <= |tasks| && forall i :: i in tasks ==> evaluate(i).network
    ensures After(c, log).kind.Some?
  {
    forall k | 0 <= k < |log| && log[k].Observed?
      ensures log[k].network
    {
      LoggedIsShown(log, tasks, k);
      assert TruthfulEvent(log[k], evaluate, alarms);
    }
    RunOfAll(log, |log|);
    assert log[..|log|] == log;
    ShownCount(log, tasks);
    ClosedMeansNoTrip(c, log);
    if NoTrip(c, log) {
      RunsStayShort(c, log, |log|);
    }
  }

  /** The shown tasks that failed. */
  function FailedTasks(log: seq<Event>, n: nat): set<nat>
    requires n <= |log|
  {
    if n == 0 then {}
    else FailedTasks(log, n - 1) + if log[n - 1].Observed? && log[n - 1].network then {log[n - 1].task} else {}
  }

  predicate ShownOnce(log: seq<Event>) {
    forall j, k :: 0 <= j < k < |log| && log[j].Observed? && log[k].Observed? ==> log[j].task != log[k].task
  }

  lemma {:induction false} FailedIsLogged(log: seq<Event>, n: nat, task: nat) returns (k: nat)
    requires n <= |log| && task in FailedTasks(log, n)
    ensures k < n && log[k].Observed? && log[k].network && log[k].task == task
  {
    var e := log[n - 1];
    if e.Observed? && e.network && e.task == task {
      k := n - 1;
    } else {
      k := FailedIsLogged(log, n - 1, task);
    }
  }

  /** A run of failures is no longer than the number of tasks that failed. */
  lemma {:induction false} RunWithinFailed(log: seq<Event>, n: nat)
    requires n <= |log| && ShownOnce(log)
    ensures NetworkRun(log, n) <= |FailedTasks(log, n)|
  {
    if n > 0 {
      RunWithinFailed(log, n - 1);
      var e, before := log[n - 1], FailedTasks(log, n - 1);
      if e.Observed? && e.network && e.task in before {
        var k := FailedIsLogged(log, n - 1, e.task);
        assert false;
      }
    }
  }

  lemma EntryIsCounted(log: seq<Event>, k: nat, task: nat)
    requires k < |log| && log[k].Observed? && log[k].task == task
    ensures multiset(ObservedTasks(log))[task] >= 1
  {
    LoggedIsObserved(log, k);
    assert task in multiset(ObservedTasks(log));
  }

  lemma CountsAdd(a: seq<nat>, b: seq<nat>, x: nat)
    ensures multiset(a + b)[x] == multiset(a)[x] + multiset(b)[x]
  {
  }

  lemma TwiceIsTwo(log: seq<Event>, j: nat, k: nat)
    requires j < k < |log| && log[j].Observed? && log[k].Observed? && log[j].task == log[k].task
    ensures multiset(ObservedTasks(log))[log[j].task] >= 2
  {
    TwoParts(log, log[..k], log[k..], j, log[j].task);
  }

  lemma TwoParts(log: seq<Event>, a: seq<Event>, b: seq<Event>, j: nat, task: nat)
    requires log == a + b && j < |a| && a[j].Observed? && a[j].task == task
    requires b != [] && b[0].Observed? && b[0].task == task
    ensures multiset(ObservedTasks(log))[task] >= 2
  {
    EntryIsCounted(a, j, task);
    EntryIsCounted(b, 0, task);
    ObservedConcat(a, b);
    CountsAdd(ObservedTasks(a), ObservedTasks(b), task);
  }

  lemma ShownOnceEach(log: seq<Event>, tasks: set<nat>)
    requires Shows(log, tasks)
    ensures ShownOnce(log)
  {
    forall j, k | 0 <= j < k < |log| && log[j].Observed? && log[k].Observed?
      ensures log[j].task != log[k].task
    {
      assert multiset(tasks)[log[j].task] <= 1;
      if log[j].task == log[k].task {
        TwiceIsTwo(log, j, k);
      }
    }
  }

  lemma FailedWithin(log: seq<Event>, m: nat, tasks: set<nat>, evaluate: nat -> Evaluation, alarms: nat -> bool, n: nat)
    requires m <= |log| && Shows(log, tasks) && Truthful(log, evaluate, alarms)
    requires forall i :: i in tasks ==> i < n
    ensures FailedTasks(log, m) <= Failing(evaluate, n)
  {
    forall i | i in FailedTasks(log, m)
      ensures i in Failing(evaluate, n)
    {
      var k := FailedIsLogged(log, m, i);
      LoggedIsShown(log, tasks, k);
      assert TruthfulEvent(log[k], evaluate, alarms);
    }
  }

  /** With fewer failing tasks than the threshold and no exhausted resources the breaker stays closed. */
  lemma StaysClosed(c: Config, log: seq<Event>, tasks: set<nat>, evaluate: nat -> Evaluation, alarms: nat -> bool, n: nat)
    requires Shows(log, tasks) && Truthful(log, evaluate, alarms) && forall i :: i in tasks ==> i < n
    requires c.stopOnResource ==> ResourcesHold(evaluate, alarms, n)
    requires c.maxNetworkFailures <= 0 || |Failing(evaluate, n)| < c.maxNetworkFailures
    ensures After(c, log).kind == None
  {
    ShownOnceEach(log, tasks);
    forall k | 0 <= k < |log|
      ensures !TripsAt(c, log, k)
    {
      assert TruthfulEvent(log[k], evaluate, alarms);
      if log[k].Observed? {
        LoggedIsShown(log, tasks, k);
      }
      RunWithinFailed(log, k + 1);
      FailedWithin(log, k + 1, tasks, evaluate, alarms, n);
      SubsetIsSmaller(FailedTasks(log, k + 1), Failing(evaluate, n));
    }
    ClosedMeansNoTrip(c, log);
  }

  // ---- One task at a time --------------------------------------------------

  /** What the breaker is shown when the first n tasks run one after the other without alarms. */
  function InOrder(evaluate: nat -> Evaluation, n: nat): seq<Event> {
    seq(n, i requires 0 <= i < n => Observed(i, evaluate(i).resource, evaluate(i).network))
  }

  /** A truthful log without alarms that shows one task consists of that task's evaluation. */
  lemma SingleObservation(log: seq<Event>, task: nat, evaluate: nat -> Evaluation, alarms: nat -> bool)
    requires Shows(log, {task}) && Truthful(log, evaluate, alarms) && forall i: nat :: !alarms(i)
    ensures log == [Observed(task, evaluate(task).resource, evaluate(task).network)]
  {
    ShownCount(log, {task});
    forall k | 0 <= k < |log|
      ensures log[k] == Observed(task, evaluate(task).resource, evaluate(task).network)
    {
      assert TruthfulEvent(log[k], evaluate, alarms);
      LoggedIsShown(log, {task}, k);
    }
    ObservedCount(log);
  }

  lemma {:induction false} ObservedCount(log: seq<Event>)
    requires forall k :: 0 <= k < |log| ==> log[k].Observed?
    ensures |ObservedTasks(log)| == |log|
  {
    if log != [] {
      ObservedCount(log[..|log| - 1]);
    }
  }

  /** Nothing was shown and no alarm went off. */
  lemma NoObservation(log: seq<Event>, evaluate: nat -> Evaluation, alarms: nat -> bool)
    requires Shows(log, {}) && Truthful(log, evaluate, alarms) && forall i: nat :: !alarms(i)
    ensures log == []
  {
    if log != [] {
      assert TruthfulEvent(log[0], evaluate, alarms);
      LoggedIsShown(log, {}, 0);
      assert false;
    }
  }

  /** The one-by-one run stops behind task n - 1: that is where the breaker trips first. */
  lemma StopsAtFirstTrip(c: Config, evaluate: nat -> Evaluation, n: nat, total: nat)
    requires 0 < n <= total
    requires After(c, InOrder(evaluate, n)).kind.Some? && After(c, InOrder(evaluate, n - 1)).kind == None
    ensures FirstTrip(c, InOrder(evaluate, total), n - 1)
  {
    var log, all := InOrder(evaluate, n), InOrder(evaluate, total);
    ClosedMeansNoTrip(c, log);
    ClosedMeansNoTrip(c, InOrder(evaluate, n - 1));
    forall k | 0 <= k < n
      ensures TripsAt(c, all, k) == TripsAt(c, log, k)
    {
      SamePrefix(c, log, all, k);
    }
    forall k | 0 <= k < n - 1
      ensures !TripsAt(c, log, k)
    {
      SamePrefix(c, InOrder(evaluate, n - 1), log, k);
    }
  }

  lemma {:induction false} SameRun(log: seq<Event>, longer: seq<Event>, n: nat)
    requires n <= |log| <= |longer| && log == longer[..|log|]
    ensures NetworkRun(log, n) == NetworkRun(longer, n)
  {
    if n > 0 {
      SameRun(log, longer, n - 1);
      assert log[n - 1] == longer[n - 1];
    }
  }

  lemma SamePrefix(c: Config, log: seq<Event>, longer: seq<Event>, k: nat)
    requires k < |log| <= |longer| && log == longer[..|log|]
    ensures TripsAt(c, log, k) == TripsAt(c, longer, k)
  {
    SameRun(log, longer, k + 1);
    assert log[k] == longer[k];
  }
}
