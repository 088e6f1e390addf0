/**
 The log of completed solves and reviews since the last resume, and the repair
 bookkeeping recomputed from it, each entry from its position in the log.
 */
module VerdictLog {
  import opened Wrappers
  import opened AgentModels
  import opened FeasibilityRouting
  import opened StageFlow

  datatype Entry = Solved(result: SolverResult) | Judged(review: Review, check: Option<Doc>)
  type Log = seq<Entry>

  predicate IsRejection(e: Entry) {
    e.Judged? && e.review.decision == Reject
  }

  predicate IsRepair(arm: Arm, e: Entry) {
    IsRejection(e) && RewindTarget(Routed(arm, e.review)).Some? && e.review.handoff.Some?
  }

  predicate IsInstance(e: Entry) {
    IsRejection(e) && e.review.responsibility == INSTANCE
  }

  // ---- Recomputation -------------------------------------------------------

  /** Number of verdicts among the first n entries. */
  function Verdicts(log: Log, n: nat): nat
    requires n <= |log|
  {
    if n == 0 then 0 else Verdicts(log, n - 1) + if log[n - 1].Judged? then 1 else 0
  }

  function Repairs(arm: Arm, log: Log, n: nat): nat
    requires n <= |log|
  {
    if n == 0 then 0 else Repairs(arm, log, n - 1) + if IsRepair(arm, log[n - 1]) then 1 else 0
  }

  /** Length of the run of instance verdicts that ends before position n. */
  function Streak(log: Log, n: nat): nat
    requires n <= |log|
  {
    if n == 0 || !IsInstance(log[n - 1]) then 0 else Streak(log, n - 1) + 1
  }

  /** What that run concluded, oldest first. */
  function StreakRecords(log: Log, n: nat): (records: seq<InstanceRecord>)
    requires n <= |log|
    ensures |records| == Streak(log, n)
  {
    if n == 0 || !IsInstance(log[n - 1]) then []
    else StreakRecords(log, n - 1) + [InstanceRecordOf(log[n - 1].review)]
  }

  /** The run is maximal: it consists of instance verdicts and the entry before it is none. */
  lemma {:induction false} StreakIsMaximalRun(log: Log, n: nat)
    requires n <= |log|
    ensures Streak(log, n) <= n
    ensures forall i :: n - Streak(log, n) <= i < n ==> IsInstance(log[i])
    ensures Streak(log, n) < n ==> !IsInstance(log[n - Streak(log, n) - 1])
  {
    if n > 0 && IsInstance(log[n - 1]) {
      StreakIsMaximalRun(log, n - 1);
    }
  }

  /** Result of the latest solve among the first n entries. */
  function LastResult(log: Log, n: nat): Option<SolverResult>
    requires n <= |log|
  {
    if n == 0 then None else if log[n - 1].Solved? then Some(log[n - 1].result) else LastResult(log, n - 1)
  }

  /** First verdict at or after position n. */
  function NextVerdict(log: Log, n: nat): Option<Verdict>
    requires n <= |log|
    decreases |log| - n
  {
    if n == |log| then None
    else if log[n].Judged? then Some(VerdictOf(log[n].review))
    else NextVerdict(log, n + 1)
  }

  /** The directive issued by the repair at position k: its outcome is the next verdict. */
  function DirectiveAt(arm: Arm, log: Log, k: nat): Directive
    requires k < |log| && IsRepair(arm, log[k])
  {
    var responsibility, attempt := Routed(arm, log[k].review), Repairs(arm, log, k) + 1;
    Directive(attempt, responsibility, log[k].review.handoff.value, CompactSolverSummary(LastResult(log, k)),
              HandoffDir(responsibility, attempt), NextVerdict(log, k + 1), None)
  }

  function Directives(arm: Arm, log: Log, n: nat): (ds: seq<Directive>)
    requires n <= |log|
    ensures |ds| == Repairs(arm, log, n)
  {
    if n == 0 then []
    else Directives(arm, log, n - 1) + if IsRepair(arm, log[n - 1]) then [DirectiveAt(arm, log, n - 1)] else []
  }

  function AuditAt(arm: Arm, log: Log, k: nat): Audit
    requires k < |log| && log[k].Judged?
  {
    var review := log[k].review;
    if IsInstance(log[k]) then InstanceAudit(Streak(log, k + 1), InstanceRecordOf(review), review.evidence)
    else RepairAudit(Repairs(arm, log, k) + 1, Routed(arm, review), review, log[k].check,
                     if Routed(arm, review) != review.responsibility then Some(review.responsibility) else None)
  }

  function Audits(arm: Arm, log: Log, n: nat): seq<Audit>
    requires n <= |log|
  {
    if n == 0 then []
    else Audits(arm, log, n - 1) + if IsRejection(log[n - 1]) then [AuditAt(arm, log, n - 1)] else []
  }

  // ---- A longer log says the same about its old part -----------------------

  lemma {:induction false} PrefixStable(arm: Arm, log: Log, e: Entry, n: nat)
    requires n <= |log|
    ensures Verdicts(log + [e], n) == Verdicts(log, n)
    ensures Repairs(arm, log + [e], n) == Repairs(arm, log, n)
    ensures Streak(log + [e], n) == Streak(log, n)
    ensures StreakRecords(log + [e], n) == StreakRecords(log, n)
    ensures LastResult(log + [e], n) == LastResult(log, n)
  {
    if n > 0 {
      PrefixStable(arm, log, e, n - 1);
    }
  }

  lemma {:induction false} AuditsStable(arm: Arm, log: Log, e: Entry, n: nat)
    requires n <= |log|
    ensures Audits(arm, log + [e], n) == Audits(arm, log, n)
  {
    if n > 0 {
      AuditsStable(arm, log, e, n - 1);
      PrefixStable(arm, log, e, n - 1);
      PrefixStable(arm, log, e, n);
    }
  }

  lemma {:induction false} NextVerdictAppend(log: Log, e: Entry, n: nat)
    requires n <= |log|
    ensures NextVerdict(log + [e], n)
         == if NextVerdict(log, n).Some? then NextVerdict(log, n)
            else if e.Judged? then Some(VerdictOf(e.review)) else None
    decreases |log| - n
  {
    if n < |log| && !log[n].Judged? {
      NextVerdictAppend(log, e, n + 1);
    } else if n == |log| {
      assert (log + [e])[n] == e;
    }
  }

  function Closed(d: Directive, e: Entry): Directive {
    if e.Judged? && d.outcome == None then d.(outcome := Some(VerdictOf(e.review))) else d
  }

  function CloseAll(ds: seq<Directive>, e: Entry): (r: seq<Directive>)
    ensures |r| == |ds|
  {
    seq(|ds|, i requires 0 <= i < |ds| => Closed(ds[i], e))
  }

  /** Appending an entry closes the open directives if it is a verdict, and changes nothing else. */
  lemma {:induction false} DirectivesAppend(arm: Arm, log: Log, e: Entry, n: nat)
    requires n <= |log|
    ensures Directives(arm, log + [e], n) == CloseAll(Directives(arm, log, n), e)
  {
    if n > 0 {
      DirectivesAppend(arm, log, e, n - 1);
      PrefixStable(arm, log, e, n - 1);
      if IsRepair(arm, log[n - 1]) {
        NextVerdictAppend(log, e, n);
      }
    }
  }

  lemma {:induction false} EarlierVerdictIsNext(log: Log, n: nat, k: nat)
    requires n <= k < |log| && log[k].Judged?
    ensures NextVerdict(log, n).Some?
    decreases k - n
  {
    if n < k && !log[n].Judged? {
      EarlierVerdictIsNext(log, n + 1, k);
    }
  }

  /** Only the last directive can be open, because a later repair is itself a verdict. */
  lemma {:induction false} OnlyLastOpen(arm: Arm, log: Log, n: nat)
    requires n <= |log|
    ensures forall i :: 0 <= i < |Directives(arm, log, n)| - 1 ==> Directives(arm, log, n)[i].outcome.Some?
    ensures (exists k :: n <= k < |log| && log[k].Judged?)
            ==> forall i :: 0 <= i < |Directives(arm, log, n)| ==> Directives(arm, log, n)[i].outcome.Some?
  {
    if n > 0 {
      OnlyLastOpen(arm, log, n - 1);
      if IsRepair(arm, log[n - 1]) {
        assert n - 1 <= n - 1 < |log| && log[n - 1].Judged?;
      }
      if k :| n <= k < |log| && log[k].Judged? {
        EarlierVerdictIsNext(log, n, k);
        assert n - 1 <= k < |log| && log[k].Judged?;
      }
    }
  }

  /** Attempt numbers count up from 1. */
  lemma {:induction false} AttemptsCountUp(arm: Arm, log: Log, n: nat)
    requires n <= |log|
    ensures forall i :: 0 <= i < |Directives(arm, log, n)| ==> Directives(arm, log, n)[i].attempt == i + 1
  {
    if n > 0 {
      AttemptsCountUp(arm, log, n - 1);
    }
  }
}
