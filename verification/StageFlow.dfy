/** Transitions of the Core agent: preparing a stage and applying its result. */
module StageFlow {
  import opened Wrappers
  import opened AgentModels
  import opened FeasibilityRouting

  datatype TransitionError =
    | MismatchedResult
    | ClarificationUnsupported
    | MissingDefinition
    | MissingHandoff           // routed rejection without a remediation handoff
    | UnknownResponsibility
    | MissingDirective         // no directive for the pending attempt
    | HandoffDirMismatch
    | NotResumable

  datatype Result<+T> = Ok(value: T) | Raises(error: TransitionError)

  // ---- Preparing a stage ---------------------------------------------------

  /** Position of the last directive with the given attempt number. */
  function LastWithAttempt(directives: seq<Directive>, attempt: nat): (r: Option<nat>)
    ensures r.Some? ==> r.value < |directives| && directives[r.value].attempt == attempt
  {
    if directives == [] then None
    else if directives[|directives| - 1].attempt == attempt then Some(|directives| - 1)
    else LastWithAttempt(directives[..|directives| - 1], attempt)
  }

  /** Write the pending repair baselines; `baselines` names the files that existed. */
  function PreparePendingHandoff(attempt: nat, directives: seq<Directive>, baselines: seq<string>)
    : Result<seq<Directive>>
  {
    match LastWithAttempt(directives, attempt)
    case None => Raises(MissingDirective)
    case Some(i) =>
      if directives[i].handoffDir != HandoffDir(directives[i].responsibility, attempt)
      then Raises(HandoffDirMismatch)
      else Ok(directives[i := directives[i].(baselines := Some(baselines))])
  }

  /** The state a stage runs in, after pending handoff and workspace reset are done. */
  function Prepare(s: AgentState, baselines: seq<string>): Result<AgentState> {
    if s.pendingHandoff == 0 then Ok(s.(pendingWorkspaceReset := false))
    else
      match PreparePendingHandoff(s.pendingHandoff, s.directives, baselines)
      case Raises(e) => Raises(e)
      case Ok(directives) => Ok(s.(directives := directives, pendingWorkspaceReset := false, pendingHandoff := 0))
  }

  /** The stage ends at once because an earlier stage has not produced its input. */
  predicate MissingPrerequisite(arm: Arm, s: AgentState) {
    match s.currentStage
    case Some(GurobiFormulator) => s.problemContract == None
    case Some(Solving) =>
      || (arm.contract && s.problemContract == None)
      || (arm.design && s.algorithmDesign == None)
      || (arm.formulator && s.gurobiFormulation == None)
    case Some(FeasibilityReview) => s.solverResult == None
    case _ => false
  }

  // ---- Applying a result ---------------------------------------------------

  function AfterContract(arm: Arm): Stage {
    if arm.design then AlgorithmDesign else AfterDesign(arm)
  }

  function AfterDesign(arm: Arm): Stage {
    if arm.formulator then GurobiFormulator else Solving
  }

  function AfterIntake(arm: Arm): Stage {
    if arm.contract then ProblemContract else AfterContract(arm)
  }

  function PauseForClarification(s: AgentState, message: string, definition: Option<Doc>, questions: seq<string>)
    : AgentState
  {
    s.(problemDefinition := if definition.Some? && definition.value != map[]
                            then Some(definition.value["confirmed" := "false"]) else s.problemDefinition,
       pendingQuestions := questions,
       clarificationRounds := s.clarificationRounds + 1,
       currentStage := None,
       conversation := s.conversation + [Message("assistant", message)])
  }

  function ApplyIntake(arm: Arm, s: AgentState, data: StageData): Result<AgentState>
    requires data.IntakeData?
  {
    if !data.ready then Ok(PauseForClarification(s, data.reply, data.definition, data.questions))
    else if data.definition == None || data.definition.value == map[] then Raises(MissingDefinition)
    else Ok(s.(problemDefinition := Some(data.definition.value["confirmed" := "true"]),
               pendingQuestions := [],
               currentStage := Some(AfterIntake(arm))))
  }

  function WithCheck(result: Option<SolverResult>, check: Option<Doc>): SolverResult {
    match result
    case Some(r) => r.(check := check)
    case None => SolverResult("", None, "", [], check)
  }

  function InstanceRecordOf(review: Review): InstanceRecord {
    InstanceRecord(review.confidence, review.summary, review.infeasibilityProof)
  }

  /** A rejection that sends the run back to `target`. */
  function ApplyRepair(arm: Arm, s: AgentState, review: Review, check: Option<Doc>, target: Stage): Result<AgentState> {
    if review.handoff == None then Raises(MissingHandoff)
    else
      var attempt, responsibility := s.feasibilityRounds + 1, Routed(arm, review);
      var directive := BuildDirective(attempt, responsibility, review.handoff.value,
                                      Some(WithCheck(s.solverResult, check)));
      var audit := RepairAudit(attempt, responsibility, review, check,
                               if review.responsibility != responsibility then Some(review.responsibility) else None);
      Ok(s.(feasibilityReview := None,
            feasibilityRounds := attempt,
            directives := AnnotateOutcome(s.directives, review) + [directive],
            audits := s.audits + [audit],
            instanceReviews := [],
            pendingHandoff := attempt,
            pendingWorkspaceReset := true,
            currentStage := Some(target),
            failure := None,
            explanation := None,
            solverResult := None,
            generatedCode := "",
            algorithmDesign := if target == AlgorithmDesign then None else s.algorithmDesign,
            gurobiFormulation := if target == GurobiFormulator then None else s.gurobiFormulation))
  }

  /** A rejection blamed on the instance: review again, or confirm on the third in a row. */
  function ApplyInstance(s: AgentState, review: Review, check: Option<Doc>): AgentState {
    var reviews := s.instanceReviews + [InstanceRecordOf(review)];
    var s' := s.(directives := AnnotateOutcome(s.directives, review),
                 audits := s.audits + [InstanceAudit(|reviews|, InstanceRecordOf(review), review.evidence)],
                 instanceReviews := reviews,
                 failure := None);
    if HasConfirmedInstanceReviews(reviews)
    then s'.(feasibilityReview := Some(review), solverResult := Some(WithCheck(s.solverResult, check)),
             pendingWorkspaceReset := false, currentStage := Some(Explanation))
    else s'.(feasibilityReview := None, pendingWorkspaceReset := true, currentStage := Some(FeasibilityReview))
  }

  function ApplyReview(arm: Arm, s: AgentState, review: Review, check: Option<Doc>): Result<AgentState> {
    if review.decision == Accept then
      Ok(s.(feasibilityReview := Some(review),
            solverResult := Some(WithCheck(s.solverResult, check)),
            directives := AnnotateOutcome(s.directives, review),
            instanceReviews := [],
            currentStage := Some(Explanation)))
    else
      match RewindTarget(Routed(arm, review))
      case Some(target) => ApplyRepair(arm, s, review, check, target)
      case None =>
        if Routed(arm, review) != INSTANCE then Raises(UnknownResponsibility)
        else Ok(ApplyInstance(s, review, check))
  }

  function ApplyStageResult(arm: Arm, s: AgentState, result: StageResult): Result<AgentState> {
    if s.currentStage != Some(ResultStage(result)) then Raises(MismatchedResult)
    else
      match result
      case Failed(_, message) => Ok(s.(failure := Some(message), currentStage := None))
      case NeedsClarification(stage, message, questions) =>
        if stage != Solving then Raises(ClarificationUnsupported)
        else Ok(PauseForClarification(s, message, s.problemDefinition, questions))
      case Completed(data) =>
        match data
        case IntakeData(_, _, _, _) => ApplyIntake(arm, s, data)
        case ContractData(contract) =>
          Ok(s.(problemContract := Some(contract), currentStage := Some(AfterContract(arm))))
        case DesignData(design) =>
          Ok(s.(algorithmDesign := Some(design), currentStage := Some(AfterDesign(arm))))
        case FormulationData(formulation) =>
          Ok(s.(gurobiFormulation := Some(formulation), currentStage := Some(Solving)))
        case SolvingData(solved, code) =>
          Ok(s.(solverResult := Some(solved),
                feasibilityReview := None,
                instanceReviews := [],
                currentStage := Some(if arm.review then FeasibilityReview else Explanation),
                generatedCode := if code.Some? then code.value else s.generatedCode))
        case ReviewData(review, check) => ApplyReview(arm, s, review, check)
        case ExplanationData(explanation) =>
          Ok(s.(explanation := Some(explanation), currentStage := None))
  }

  /** A user's answer restarts the run at intake and clears everything downstream. */
  function Resume(s: AgentState, message: string): Result<AgentState> {
    if s.currentStage != None || s.pendingQuestions == [] then Raises(NotResumable)
    else Ok(s.(conversation := s.conversation + [Message("user", message)],
               problemContract := None,
               algorithmDesign := None,
               generatedCode := "",
               solverResult := None,
               explanation := None,
               failure := None,
               currentStage := Some(Intake),
               pendingQuestions := [],
               pendingWorkspaceReset := true,
               feasibilityReview := None,
               feasibilityRounds := 0,
               directives := [],
               audits := [],
               instanceReviews := [],
               pendingHandoff := 0))
  }

  // ---- Outcomes ------------------------------------------------------------

  datatype Outcome = AsksUser | RunFailed | Succeeded(status: string) | ProtocolError

  function SuccessStatus(s: AgentState): string {
    if s.feasibilityReview.Some? && s.feasibilityReview.value.decision == Reject
       && s.feasibilityReview.value.responsibility == INSTANCE
    then "instance_infeasible" else "succeeded"
  }

  function OutcomeOf(s: AgentState): Outcome {
    if s.pendingQuestions != [] then AsksUser
    else if s.failure.Some? then RunFailed
    else if s.explanation.Some? then Succeeded(SuccessStatus(s))
    else ProtocolError
  }
}
