/** The benchmark's circuit breaker, and what it says about the whole sequence of events. */
module CircuitBreakers {
  import opened Wrappers

  datatype Kind = NetworkFailureThreshold | ResourceExhaustion
  datatype Reason = FailuresInARow(count: nat) | ExhaustedIn(task: nat)

  /** A finished task's error text, by the markers found in it; or a resource alarm raised mid-task. */
  datatype Event =
    | Observed(task: nat, resource: bool, network: bool)
    | Alarm(task: nat)

  datatype Config = Config(stopOnResource: bool, maxNetworkFailures: int)

  datatype State = State(consecutive: nat, kind: Option<Kind>, reason: Option<Reason>)

  const CLOSED := State(0, None, None)

  function TripResource(c: Config, b: State, task: nat): State {
    if b.kind.Some? || !c.stopOnResource then b
    else State(b.consecutive, Some(ResourceExhaustion), Some(ExhaustedIn(task)))
  }

  function Handle(c: Config, b: State, e: Event): State {
    match e
    case Alarm(task) => TripResource(c, b, task)
    case Observed(task, resource, network) =>
      if b.kind.Some? then b
      else if c.stopOnResource && resource then TripResource(c, b, task)
      else if c.maxNetworkFailures <= 0 then b
      else if network then
        var n := b.consecutive + 1;
        if n >= c.maxNetworkFailures then State(n, Some(NetworkFailureThreshold), Some(FailuresInARow(n)))
        else b.(consecutive := n)
      else b.(consecutive := 0)
  }

  function After(c: Config, log: seq<Event>): State {
    if log == [] then CLOSED else Handle(c, After(c, log[..|log| - 1]), log[|log| - 1])
  }

  class CircuitBreaker {
    const config: Config
    var consecutiveNetworkFailures: nat
    var kind: Option<Kind>
    var reason: Option<Reason>
    ghost var log: seq<Event>

    ghost function View(): State
      reads this
    {
      State(consecutiveNetworkFailures, kind, reason)
    }

    ghost predicate Valid()
      reads this
    {
      View() == After(config, log)
    }

    constructor (config: Config)
      ensures Valid() && this.config == config && log == []
    {
      this.config := config;
      consecutiveNetworkFailures, kind, reason, log := 0, None, None, [];
    }

    predicate Tripped()
      reads this
    {
      kind.Some?
    }

    method Observe(task: nat, resource: bool, network: bool)
      requires Valid()
      modifies this
      ensures Valid() && log == old(log) + [Observed(task, resource, network)]
    {
      log := log + [Observed(task, resource, network)];
      assert log[..|log| - 1] == old(log);
      if Tripped() {
        return;
      }
      if config.stopOnResource && resource {
        kind, reason := Some(ResourceExhaustion), Some(ExhaustedIn(task));
        return;
      }
      if config.maxNetworkFailures <= 0 {
        return;
      }
      if network {
        consecutiveNetworkFailures := consecutiveNetworkFailures + 1;
        if consecutiveNetworkFailures >= config.maxNetworkFailures {
          kind := Some(NetworkFailureThreshold);
          reason := Some(FailuresInARow(consecutiveNetworkFailures));
        }
        return;
      }
      consecutiveNetworkFailures := 0;
    }

    method RaiseAlarm(task: nat)
      requires Valid()
      modifies this
      ensures Valid() && log == old(log) + [Alarm(task)]
    {
      log := log + [Alarm(task)];
      assert log[..|log| - 1] == old(log);
      if Tripped() || !config.stopOnResource {
        return;
      }
      kind, reason := Some(ResourceExhaustion), Some(ExhaustedIn(task));
    }
  }

  // ---- Meaning over the event sequence -------------------------------------

  predicate IsResourceTrip(c: Config, e: Event) {
    c.stopOnResource && (e.Alarm? || e.resource)
  }

  /** Finished tasks with network failures at the end of the first n events; alarms do not interrupt. */
  function NetworkRun(log: seq<Event>, n: nat): nat
    requires n <= |log|
  {
    if n == 0 then 0
    else
      match log[n - 1]
      case Alarm(_) => NetworkRun(log, n - 1)
      case Observed(_, _, network) => if network then NetworkRun(log, n - 1) + 1 else 0
  }

  /** Event k is reason enough to trip, whatever happened before it. */
  predicate TripsAt(c: Config, log: seq<Event>, k: nat)
    requires k < |log|
  {
    || IsResourceTrip(c, log[k])
    || (c.maxNetworkFailures > 0 && log[k].Observed? && log[k].network
        && NetworkRun(log, k + 1) >= c.maxNetworkFailures)
  }

  predicate FirstTrip(c: Config, log: seq<Event>, k: nat) {
    k < |log| && TripsAt(c, log, k) && forall i :: 0 <= i < k ==> !TripsAt(c, log, i)
  }

  predicate NoTrip(c: Config, log: seq<Event>) {
    forall i :: 0 <= i < |log| ==> !TripsAt(c, log, i)
  }

  lemma {:induction false} RunOfPrefix(log: seq<Event>, e: Event, n: nat)
    requires n <= |log|
    ensures NetworkRun(log + [e], n) == NetworkRun(log, n)
  {
    if n > 0 {
      RunOfPrefix(log, e, n - 1);
    }
  }

  lemma TripsOfPrefix(c: Config, log: seq<Event>, e: Event)
    ensures forall i :: 0 <= i < |log| ==> TripsAt(c, log + [e], i) == TripsAt(c, log, i)
  {
    forall i | 0 <= i < |log|
      ensures TripsAt(c, log + [e], i) == TripsAt(c, log, i)
    {
      RunOfPrefix(log, e, i + 1);
    }
  }

  lemma {:induction false} RunsStayShort(c: Config, log: seq<Event>, n: nat)
    requires n <= |log| && NoTrip(c, log) && c.maxNetworkFailures > 0
    ensures NetworkRun(log, n) < c.maxNetworkFailures
  {
    if n > 0 {
      RunsStayShort(c, log, n - 1);
      assert !TripsAt(c, log, n - 1);
    }
  }

  /** Before a trip the counter is the trailing run; the kind is decided by the first trip alone. */
  lemma {:induction false} BreakerMeaning(c: Config, log: seq<Event>)
    ensures NoTrip(c, log) ==>
              After(c, log) == State(if c.maxNetworkFailures > 0 then NetworkRun(log, |log|) else 0, None, None)
    ensures forall k: nat :: FirstTrip(c, log, k) ==>
              var b := After(c, log);
              if IsResourceTrip(c, log[k])
              then b.kind == Some(ResourceExhaustion) && b.reason == Some(ExhaustedIn(log[k].task))
              else b.kind == Some(NetworkFailureThreshold)
                   && NetworkRun(log, k + 1) == c.maxNetworkFailures
                   && b.reason == Some(FailuresInARow(c.maxNetworkFailures))
    ensures NoTrip(c, log) || exists k: nat :: FirstTrip(c, log, k)
  {
    if log != [] {
      var n := |log| - 1;
      var before, e := log[..n], log[n];
      assert log == before + [e];
      BreakerMeaning(c, before);
      TripsOfPrefix(c, before, e);
      RunOfPrefix(before, e, n);
      assert log[n] == e;
      if NoTrip(c, before) {
        if TripsAt(c, log, n) {
          assert FirstTrip(c, log, n);
        }
      } else {
        var k: nat :| FirstTrip(c, before, k);
        RunOfPrefix(before, e, k + 1);
        assert FirstTrip(c, log, k);
      }
      forall k: nat | FirstTrip(c, log, k)
        ensures var b := After(c, log);
                if IsResourceTrip(c, log[k])
                then b.kind == Some(ResourceExhaustion) && b.reason == Some(ExhaustedIn(log[k].task))
                else b.kind == Some(NetworkFailureThreshold)
                     && NetworkRun(log, k + 1) == c.maxNetworkFailures
                     && b.reason == Some(FailuresInARow(c.maxNetworkFailures))
      {
        if k < n {
          assert FirstTrip(c, before, k);
          RunOfPrefix(before, e, k + 1);
        } else {
          assert NoTrip(c, before);
          if !IsResourceTrip(c, e) {
            RunsStayShort(c, before, n);
          }
        }
      }
    }
  }

  /** A tripped breaker never changes again, whatever follows. */
  lemma {:induction false} TripIsFinal(c: Config, log: seq<Event>, more: seq<Event>)
    requires After(c, log).kind.Some?
    ensures After(c, log + more) == After(c, log)
    decreases |more|
  {
    if more == [] {
      assert log + more == log;
    } else {
      var m := |more| - 1;
      TripIsFinal(c, log, more[..m]);
      assert (log + more)[..|log + more| - 1] == log + more[..m];
    }
  }
}
