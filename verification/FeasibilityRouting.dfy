/** Repair directives, their outcomes, and which audits a reviewer may see. */
module FeasibilityRouting {
  import opened Wrappers
  import opened Decimal
  import opened AgentModels

  const INSTANCE_CONFIRMED_REVIEW_COUNT := 3

  predicate HasConfirmedInstanceReviews(reviews: seq<InstanceRecord>) {
    |reviews| >= INSTANCE_CONFIRMED_REVIEW_COUNT
  }

  /** Stage a responsibility label sends the run back to. */
  function RewindTarget(responsibility: string): Option<Stage> {
    if responsibility == SOLVING then Some(Solving)
    else if responsibility == ALGORITHM_DESIGN then Some(AlgorithmDesign)
    else if responsibility == GUROBI_FORMULATOR then Some(GurobiFormulator)
    else None
  }

  /** Without a design stage its label goes to the stage that owns the plan in this arm. */
  function Routed(arm: Arm, review: Review): string {
    if review.responsibility == ALGORITHM_DESIGN && !arm.design
    then (if arm.formulator then GUROBI_FORMULATOR else SOLVING)
    else review.responsibility
  }

  function HandoffDir(target: string, attempt: nat): string {
    "feasibility_handoffs/" + target + "/attempt" + ToText(attempt)
  }

  function Take<T>(xs: seq<T>, n: nat): seq<T> {
    if |xs| <= n then xs else xs[..n]
  }

  function ClippedMethods(methods: seq<string>): (r: seq<string>)
    ensures |r| == |methods|
  {
    if methods == [] then [] else [Take(methods[0], 80)] + ClippedMethods(methods[1..])
  }

  function CompactSolverSummary(result: Option<SolverResult>): SolverSummary {
    match result
    case None => SolverSummary("", "", [])
    case Some(r) => SolverSummary(Take(r.status, 80), Take(r.diagnosis, 500), Take(ClippedMethods(r.methods), 20))
  }

  function BuildDirective(attempt: nat, responsibility: string, handoff: Doc, result: Option<SolverResult>): Directive {
    Directive(attempt, responsibility, handoff, CompactSolverSummary(result), HandoffDir(responsibility, attempt),
              None, None)
  }

  function VerdictOf(review: Review): Verdict {
    Verdict(review.decision, if review.decision == Reject then Some(review.responsibility) else None)
  }

  /** Attach a verdict to the last directive, unless it already has one. */
  function AnnotateOutcome(directives: seq<Directive>, review: Review): seq<Directive> {
    if directives == [] || directives[|directives| - 1].outcome.Some? then directives
    else directives[..|directives| - 1] + [directives[|directives| - 1].(outcome := Some(VerdictOf(review)))]
  }

  /** Whether the stage prompt carries the active repair instruction. */
  predicate ExecutorInstructed(directives: seq<Directive>, stage: Stage) {
    && directives != []
    && directives[|directives| - 1].outcome == None
    && RewindTarget(directives[|directives| - 1].responsibility) == Some(stage)
  }

  predicate ReviewerInstructed(directives: seq<Directive>) {
    directives != [] && directives[|directives| - 1].outcome == None
  }

  // ---- Reviewer history ----------------------------------------------------

  /** Drop at most `withheld` instance audits from the end. */
  function DropInstanceTail(audits: seq<Audit>, withheld: nat): seq<Audit> {
    if withheld > 0 && audits != [] && audits[|audits| - 1].InstanceAudit?
    then DropInstanceTail(audits[..|audits| - 1], withheld - 1)
    else audits
  }

  function VisibleHistory(audits: seq<Audit>, instanceRun: seq<InstanceRecord>): seq<Audit> {
    DropInstanceTail(audits, if HasConfirmedInstanceReviews(instanceRun) then 0 else |instanceRun|)
  }

  method VisibleReviewHistory(audits: seq<Audit>, instanceRun: seq<InstanceRecord>) returns (kept: seq<Audit>)
    ensures kept == VisibleHistory(audits, instanceRun)
  {
    var withheld: nat := if HasConfirmedInstanceReviews(instanceRun) then 0 else |instanceRun|;
    kept := audits;
    while withheld > 0 && kept != [] && kept[|kept| - 1].InstanceAudit?
      invariant DropInstanceTail(kept, withheld) == VisibleHistory(audits, instanceRun)
      decreases withheld
    {
      kept := kept[..|kept| - 1];
      withheld := withheld - 1;
    }
  }
}
