/** Where every stage result leads, said by stage names and labels, without the functions that compute it. */
module VerdictEffects {
  import opened Wrappers
  import opened Decimal
  import opened AgentModels
  import opened FeasibilityRouting
  import opened StageFlow
  import opened VerdictLog
  import opened StageRuns

  // ---- Verdicts ------------------------------------------------------------

  /** The stage responsible for a rejection: the blamed one, or the one that owns the plan in this arm. */
  function ResponsibleStage(arm: Arm, blamed: string): Stage {
    if blamed == "solving" then Solving
    else if blamed == "gurobi_formulator" then GurobiFormulator
    else if arm.design then AlgorithmDesign
    else if arm.formulator then GurobiFormulator
    else Solving
  }

  function NameOf(stage: Stage): string {
    match stage
    case Intake => "intake"
    case ProblemContract => "problem_contract"
    case AlgorithmDesign => "algorithm_design"
    case GurobiFormulator => "gurobi_formulator"
    case Solving => "solving"
    case FeasibilityReview => "feasibility_review"
    case Explanation => "explanation"
  }

  /** The state a review's verdict is applied to: preparation changes two flags only. */
  lemma PreparedForReview(arm: Arm, w: World, baselines: seq<string>)
    requires Invariant(arm, w) && w.state.currentStage == Some(FeasibilityReview)
    ensures w.state.pendingHandoff == 0
    ensures Prepare(w.state, baselines) == StageFlow.Ok(w.state.(pendingWorkspaceReset := false))
    ensures !MissingPrerequisite(arm, w.state.(pendingWorkspaceReset := false))
  {
    if w.state.pendingHandoff != 0 {
      assert false;
    }
  }

  /** A verdict's turn is the verdict applied to that state. */
  lemma ReviewTurn(arm: Arm, w: World, baselines: seq<string>, transcript: seq<Message>, review: Review,
                   check: Option<Doc>)
    requires Reachable(arm, w) && w.state.currentStage == Some(FeasibilityReview) && ValidReview(review)
    ensures var s := w.state.(pendingWorkspaceReset := false);
            var next := Transition(arm, w, Turn(baselines, transcript, Completed(ReviewData(review, check))));
            && ApplyReview(arm, s, review, check).Ok?
            && next == StageFlow.Ok(World(ApplyReview(arm, s, review, check).value, w.log + [Judged(review, check)]))
  {
    ReachableInvariant(arm, w);
    PreparedForReview(arm, w, baselines);
    StepKeeps(arm, w, Turn(baselines, transcript, Completed(ReviewData(review, check))));
  }

  /** What a rejection that is not blamed on the instance does to a state. */
  lemma RejectionApplied(arm: Arm, s: AgentState, review: Review, check: Option<Doc>)
    requires ValidReview(review) && review.decision == Reject && review.responsibility != "instance"
    ensures var r := ApplyReview(arm, s, review, check);
            var stage, n := ResponsibleStage(arm, review.responsibility), s.feasibilityRounds + 1;
            && r.Ok? && r.value.currentStage == Some(stage)
            && r.value.feasibilityRounds == n && r.value.pendingHandoff == n && r.value.pendingWorkspaceReset
            && |r.value.directives| == |s.directives| + 1
            && r.value.directives[|s.directives|].attempt == n
            && r.value.directives[|s.directives|].responsibility == NameOf(stage)
            && r.value.directives[|s.directives|].handoff == review.handoff.value
            && r.value.directives[|s.directives|].handoffDir
               == "feasibility_handoffs/" + NameOf(stage) + "/attempt" + ToText(n)
            && r.value.directives[|s.directives|].outcome == None
            && r.value.audits == s.audits + [RepairAudit(n, NameOf(stage), review, check,
                                                         if NameOf(stage) == review.responsibility then None
                                                         else Some(review.responsibility))]
  {
  }

  /** Exactly the responsible stage, and later the reviewer, is told about the repair. */
  lemma RejectionInstructs(arm: Arm, s: AgentState, review: Review, check: Option<Doc>, t: Stage)
    requires ValidReview(review) && review.decision == Reject && review.responsibility != "instance"
    ensures var s' := ApplyReview(arm, s, review, check).value;
            && (ExecutorInstructed(s'.directives, t) <==> t == ResponsibleStage(arm, review.responsibility))
            && ReviewerInstructed(s'.directives)
  {
  }

  /** Of the results only the responsible stage's own and everything solved or judged is dropped. */
  lemma RejectionDrops(arm: Arm, s: AgentState, review: Review, check: Option<Doc>)
    requires ValidReview(review) && review.decision == Reject && review.responsibility != "instance"
    ensures var s' := ApplyReview(arm, s, review, check).value;
            var stage := ResponsibleStage(arm, review.responsibility);
            && s'.algorithmDesign == (if stage == AlgorithmDesign then None else s.algorithmDesign)
            && s'.gurobiFormulation == (if stage == GurobiFormulator then None else s.gurobiFormulation)
            && s'.solverResult == None && s'.generatedCode == "" && s'.feasibilityReview == None
            && s'.instanceReviews == [] && s'.explanation == None && s'.failure == None
            && s'.problemContract == s.problemContract && s'.problemDefinition == s.problemDefinition
            && s'.conversation == s.conversation && s'.pendingQuestions == s.pendingQuestions
            && s'.clarificationRounds == s.clarificationRounds
  {
  }

  /**
   Under review in any reachable state: a rejection sends the run back to the stage its label
   names, or that owns the plan, and the new directive and audit carry that stage's name.
  */
  lemma RejectionLeads(arm: Arm, w: World, baselines: seq<string>, transcript: seq<Message>, review: Review,
                       check: Option<Doc>)
    requires Reachable(arm, w) && w.state.currentStage == Some(FeasibilityReview)
    requires ValidReview(review) && review.decision == Reject && review.responsibility != "instance"
    ensures var next := Transition(arm, w, Turn(baselines, transcript, Completed(ReviewData(review, check))));
            && next.Ok?
            && var s', stage := next.value.state, ResponsibleStage(arm, review.responsibility);
               && s'.currentStage == Some(stage)
               && s'.directives != [] && s'.directives[|s'.directives| - 1].responsibility == NameOf(stage)
               && (forall t :: ExecutorInstructed(s'.directives, t) <==> t == stage)
               && s'.audits != [] && s'.audits[|s'.audits| - 1].RepairAudit?
               && s'.audits[|s'.audits| - 1].responsibility == NameOf(stage)
               && s'.solverResult == None && s'.pendingWorkspaceReset
               && s'.pendingHandoff == w.state.feasibilityRounds + 1
  {
    ReviewTurn(arm, w, baselines, transcript, review, check);
    RejectionApplied(arm, w.state.(pendingWorkspaceReset := false), review, check);
    RejectionDrops(arm, w.state.(pendingWorkspaceReset := false), review, check);
    forall t
      ensures ExecutorInstructed(ApplyReview(arm, w.state.(pendingWorkspaceReset := false), review, check).value.directives, t)
         <==> t == ResponsibleStage(arm, review.responsibility)
    {
      RejectionInstructs(arm, w.state.(pendingWorkspaceReset := false), review, check, t);
    }
  }

  lemma InstancesCounted(arm: Arm, w: World)
    requires Reachable(arm, w)
    ensures |w.state.instanceReviews| == Streak(w.log, |w.log|)
  {
    BookkeepingEqualsRecomputation(arm, w);
  }

  /** What a rejection blamed on the instance does to a state that counts n - 1 of them in a row. */
  lemma InstanceApplied(arm: Arm, s: AgentState, review: Review, check: Option<Doc>, n: nat)
    requires ValidReview(review) && review.decision == Reject && review.responsibility == "instance"
    requires n == |s.instanceReviews| + 1
    ensures ApplyReview(arm, s, review, check).Ok?
    ensures var s' := ApplyReview(arm, s, review, check).value;
            && s'.feasibilityRounds == s.feasibilityRounds && |s'.instanceReviews| == n
            && s'.audits == s.audits + [InstanceAudit(n, InstanceRecord(review.confidence, review.summary,
                                                                        review.infeasibilityProof), review.evidence)]
            && if n >= 3 then s'.currentStage == Some(Explanation) && s'.feasibilityReview == Some(review)
                              && !s'.pendingWorkspaceReset
                              && (s.solverResult.Some?
                                  ==> s'.solverResult == Some(s.solverResult.value.(check := check)))
               else s'.currentStage == Some(FeasibilityReview) && s'.feasibilityReview == None
                    && s'.pendingWorkspaceReset && s'.solverResult == s.solverResult
  {
  }

  /** A verdict against the instance: reviewed again with the same candidate, or confirmed the third time in a row. */
  lemma InstanceVerdictLeads(arm: Arm, w: World, baselines: seq<string>, transcript: seq<Message>, review: Review,
                             check: Option<Doc>)
    requires Reachable(arm, w) && w.state.currentStage == Some(FeasibilityReview)
    requires ValidReview(review) && review.decision == Reject && review.responsibility == "instance"
    ensures var next := Transition(arm, w, Turn(baselines, transcript, Completed(ReviewData(review, check))));
            && next.Ok?
            && var s, s', n := w.state, next.value.state, Streak(w.log, |w.log|) + 1;
               && s'.feasibilityRounds == s.feasibilityRounds
               && s'.audits == s.audits + [InstanceAudit(n, InstanceRecord(review.confidence, review.summary,
                                                                           review.infeasibilityProof), review.evidence)]
               && if n >= 3 then s'.currentStage == Some(Explanation) && s'.feasibilityReview == Some(review)
                                 && !s'.pendingWorkspaceReset
                  else s'.currentStage == Some(FeasibilityReview) && s'.feasibilityReview == None
                       && s'.pendingWorkspaceReset && s'.solverResult == s.solverResult
  {
    ReviewTurn(arm, w, baselines, transcript, review, check);
    InstancesCounted(arm, w);
    InstanceApplied(arm, w.state.(pendingWorkspaceReset := false), review, check, Streak(w.log, |w.log|) + 1);
  }

  /** An accepted candidate is explained next, with the check that was made of it. */
  lemma AcceptLeads(arm: Arm, w: World, baselines: seq<string>, transcript: seq<Message>, review: Review,
                    check: Option<Doc>)
    requires Reachable(arm, w) && w.state.currentStage == Some(FeasibilityReview)
    requires ValidReview(review) && review.decision == Accept
    ensures var next := Transition(arm, w, Turn(baselines, transcript, Completed(ReviewData(review, check))));
            && next.Ok?
            && var s, s' := w.state, next.value.state;
               && s'.currentStage == Some(Explanation) && s'.feasibilityReview == Some(review)
               && s.solverResult.Some? && s'.solverResult == Some(s.solverResult.value.(check := check))
               && s'.instanceReviews == [] && s'.audits == s.audits && s'.feasibilityRounds == s.feasibilityRounds
  {
    ReviewTurn(arm, w, baselines, transcript, review, check);
    ReachableInvariant(arm, w);
  }

  /** After an accept or a verdict against the instance no repair instruction is active any more. */
  lemma VerdictEndsInstruction(arm: Arm, s: AgentState, review: Review, check: Option<Doc>, stage: Stage)
    requires ValidReview(review) && (review.decision == Accept || review.responsibility == "instance")
    ensures var r := ApplyReview(arm, s, review, check);
            r.Ok? && !ExecutorInstructed(r.value.directives, stage) && !ReviewerInstructed(r.value.directives)
  {
  }

  /** A repair's outcome is the next verdict: its decision, and the reported label of a rejection. */
  lemma {:induction false} NextVerdictMeans(log: Log, n: nat) returns (k: nat)
    requires n <= |log| && NextVerdict(log, n).Some?
    ensures n <= k < |log| && log[k].Judged? && forall i :: n <= i < k ==> log[i].Solved?
    ensures NextVerdict(log, n).value.decision == log[k].review.decision
    ensures NextVerdict(log, n).value.responsibility
         == if log[k].review.decision == Reject then Some(log[k].review.responsibility) else None
    decreases |log| - n
  {
    k := n;
    if !log[n].Judged? {
      k := NextVerdictMeans(log, n + 1);
    }
  }

  function AtMost(n: nat, limit: nat): nat {
    if n <= limit then n else limit
  }

  lemma {:induction false} ClippedAt(methods: seq<string>, i: nat)
    requires i < |methods|
    ensures ClippedMethods(methods)[i] <= methods[i] && |ClippedMethods(methods)[i]| == AtMost(|methods[i]|, 80)
  {
    if i > 0 {
      ClippedAt(methods[1..], i - 1);
    }
  }

  /** A directive keeps the beginning of the rejected result only. */
  lemma SummaryIsClipped(result: SolverResult, i: nat)
    ensures var c := CompactSolverSummary(Some(result));
            && c.status <= result.status && |c.status| == AtMost(|result.status|, 80)
            && c.diagnosis <= result.diagnosis && |c.diagnosis| == AtMost(|result.diagnosis|, 500)
            && |c.methods| == AtMost(|result.methods|, 20)
            && (i < |c.methods| ==> c.methods[i] <= result.methods[i] && |c.methods[i]| == AtMost(|result.methods[i]|, 80))
  {
    if i < AtMost(|result.methods|, 20) {
      ClippedAt(result.methods, i);
    }
  }

  // ---- The other stages ----------------------------------------------------

  predicate Enabled(arm: Arm, stage: Stage) {
    match stage
    case ProblemContract => arm.contract
    case AlgorithmDesign => arm.design
    case GurobiFormulator => arm.formulator
    case FeasibilityReview => arm.review
    case _ => true
  }

  /** A stage that completes leads to the next enabled stage, and intake only when it is ready. */
  lemma CompletionLeadsOn(arm: Arm, s: AgentState, data: StageData)
    requires s.currentStage == Some(StageOf(data)) && !data.ReviewData? && !data.ExplanationData?
    requires data.IntakeData? ==> data.ready && data.definition.Some? && data.definition.value != map[]
    ensures var r := ApplyStageResult(arm, s, Completed(data));
            && r.Ok? && r.value.currentStage.Some?
            && var next := r.value.currentStage.value;
               && Enabled(arm, next) && Position(StageOf(data)) < Position(next)
               && forall t: Stage :: Enabled(arm, t) && Position(StageOf(data)) < Position(t) ==> Position(next) <= Position(t)
  {
  }

  /** Each result is stored where it belongs and nothing else about the problem changes. */
  lemma CompletionStores(arm: Arm, s: AgentState, data: StageData)
    requires s.currentStage == Some(StageOf(data)) && !data.IntakeData? && !data.ReviewData?
    ensures var s' := ApplyStageResult(arm, s, Completed(data)).value;
            match data
            case ContractData(contract) =>
              s'.problemContract == Some(contract)
              && s'.(problemContract := s.problemContract, currentStage := s.currentStage) == s
            case DesignData(design) =>
              s'.algorithmDesign == Some(design)
              && s'.(algorithmDesign := s.algorithmDesign, currentStage := s.currentStage) == s
            case FormulationData(formulation) =>
              s'.gurobiFormulation == Some(formulation)
              && s'.(gurobiFormulation := s.gurobiFormulation, currentStage := s.currentStage) == s
            case SolvingData(solved, code) =>
              && s'.solverResult == Some(solved) && s'.feasibilityReview == None && s'.instanceReviews == []
              && s'.generatedCode == (if code.Some? then code.value else s.generatedCode)
              && s'.(solverResult := s.solverResult, feasibilityReview := s.feasibilityReview,
                     instanceReviews := s.instanceReviews, generatedCode := s.generatedCode,
                     currentStage := s.currentStage) == s
            case ExplanationData(explanation) =>
              s'.explanation == Some(explanation) && s'.currentStage == None
              && s'.(explanation := s.explanation, currentStage := s.currentStage) == s
  {
  }

  /** Intake confirms a definition, or stops the run with questions and an unconfirmed one. */
  lemma IntakeConfirmsOrAsks(arm: Arm, s: AgentState, reply: string, definition: Doc, questions: seq<string>, ready: bool)
    requires s.currentStage == Some(Intake) && "goal" in definition
    ensures var s' := ApplyStageResult(arm, s, Completed(IntakeData(ready, reply, Some(definition), questions))).value;
            && s'.problemDefinition == Some(definition["confirmed" := if ready then "true" else "false"])
            && s'.clarificationRounds == s.clarificationRounds + (if ready then 0 else 1)
            && s'.pendingQuestions == (if ready then [] else questions)
            && s'.conversation == (if ready then s.conversation else s.conversation + [Message("assistant", reply)])
            && (s'.currentStage == None <==> !ready)
  {
    assert definition != map[];
  }

  /** A stopped stage or a question leaves every result in place. */
  lemma StoppingKeepsResults(arm: Arm, s: AgentState, stage: Stage, message: string, questions: seq<string>)
    requires s.currentStage == Some(stage)
    ensures var s' := ApplyStageResult(arm, s, StageResult.Failed(stage, message)).value;
            s'.failure == Some(message) && s'.currentStage == None
            && s'.(failure := s.failure, currentStage := s.currentStage) == s
    ensures var r := ApplyStageResult(arm, s, StageResult.NeedsClarification(stage, message, questions));
            && (r.Ok? <==> stage == Solving)
            && (r.Ok? ==> r.value.currentStage == None && r.value.pendingQuestions == questions
                          && r.value.solverResult == s.solverResult && r.value.problemContract == s.problemContract
                          && r.value.clarificationRounds == s.clarificationRounds + 1)
  {
  }

  /** An answer keeps what was understood and clears everything that was built on it. */
  lemma AnswerRestarts(arm: Arm, w: World, message: string)
    requires w.state.currentStage == None && w.state.pendingQuestions != []
    ensures var next := Transition(arm, w, Answer(message));
            && next.Ok? && next.value.log == []
            && var s, s' := w.state, next.value.state;
               && s'.currentStage == Some(Intake) && s'.pendingWorkspaceReset && s'.pendingQuestions == []
               && s'.conversation == s.conversation + [Message("user", message)]
               && s'.problemDescription == s.problemDescription && s'.problemDefinition == s.problemDefinition
               && s'.clarificationRounds == s.clarificationRounds
               && s'.problemContract == None && s'.algorithmDesign == None
               && s'.gurobiFormulation == s.gurobiFormulation
               && s'.solverResult == None && s'.generatedCode == "" && s'.explanation == None && s'.failure == None
               && s'.feasibilityReview == None && s'.feasibilityRounds == 0 && s'.directives == []
               && s'.audits == [] && s'.instanceReviews == [] && s'.pendingHandoff == 0
  {
  }

  // ---- What is refused -----------------------------------------------------

  /** An answer is taken exactly while a stopped run has questions. */
  lemma AnswersTaken(arm: Arm, w: World, message: string)
    ensures Transition(arm, w, Answer(message)).Ok?
       <==> w.state.currentStage == None && w.state.pendingQuestions != []
  {
  }

  /** A rejection with a label the router does not know, or without the handoff it needs. */
  predicate Unroutable(review: Review) {
    review.decision == Reject && review.responsibility != "instance"
    && (review.handoff == None
        || review.responsibility !in {"algorithm_design", "gurobi_formulator", "solving"})
  }

  /** A result is refused exactly when it belongs to another stage or breaks the contract of its own. */
  lemma RefusedResults(arm: Arm, s: AgentState, result: StageResult)
    ensures ApplyStageResult(arm, s, result).Raises?
       <==> || s.currentStage != Some(ResultStage(result))
            || (match result
                case Failed(_, _) => false
                case NeedsClarification(stage, _, _) => stage != Solving
                case Completed(IntakeData(ready, _, definition, _)) =>
                  ready && (definition == None || definition == Some(map[]))
                case Completed(ReviewData(review, _)) => Unroutable(review)
                case Completed(_) => false)
  {
  }

  lemma {:induction false} LastAttemptAt(ds: seq<Directive>, attempt: nat, i: nat)
    requires i < |ds| && ds[i].attempt == attempt && forall j :: i < j < |ds| ==> ds[j].attempt != attempt
    ensures LastWithAttempt(ds, attempt) == Some(i)
  {
    if i < |ds| - 1 {
      LastAttemptAt(ds[..|ds| - 1], attempt, i);
    }
  }

  lemma {:induction false} NoAttempt(ds: seq<Directive>, attempt: nat)
    requires forall j :: 0 <= j < |ds| ==> ds[j].attempt != attempt
    ensures LastWithAttempt(ds, attempt) == None
  {
    if ds != [] {
      NoAttempt(ds[..|ds| - 1], attempt);
    }
  }

  /** Preparing a handoff takes the last directive of that attempt, and insists on its directory. */
  lemma PreparedDirective(s: AgentState, baselines: seq<string>, i: nat)
    requires s.pendingHandoff != 0 && i < |s.directives| && s.directives[i].attempt == s.pendingHandoff
    requires forall j :: i < j < |s.directives| ==> s.directives[j].attempt != s.pendingHandoff
    ensures var d := s.directives[i];
            Prepare(s, baselines)
            == if d.handoffDir == "feasibility_handoffs/" + d.responsibility + "/attempt" + ToText(s.pendingHandoff)
               then StageFlow.Ok(s.(directives := s.directives[i := d.(baselines := Some(baselines))],
                                    pendingWorkspaceReset := false, pendingHandoff := 0))
               else Raises(HandoffDirMismatch)
  {
    LastAttemptAt(s.directives, s.pendingHandoff, i);
  }

  lemma UnpreparedDirective(s: AgentState, baselines: seq<string>)
    requires s.pendingHandoff != 0 && forall j :: 0 <= j < |s.directives| ==> s.directives[j].attempt != s.pendingHandoff
    ensures Prepare(s, baselines) == Raises(MissingDirective)
  {
    NoAttempt(s.directives, s.pendingHandoff);
  }

  /** A run starts at intake, knowing the description only, with nothing counted and nothing to prepare. */
  lemma StartsBlank(problemDescription: string)
    ensures var w := Start(problemDescription);
            && w.log == [] && w.state.currentStage == Some(Intake)
            && w.state.problemDescription == problemDescription && w.state.problemDefinition == None
            && w.state.conversation == [] && w.state.problemContract == None && w.state.algorithmDesign == None
            && w.state.gurobiFormulation == None && w.state.generatedCode == "" && w.state.solverResult == None
            && w.state.feasibilityReview == None && w.state.explanation == None && w.state.failure == None
            && w.state.pendingQuestions == [] && w.state.clarificationRounds == 0 && w.state.feasibilityRounds == 0
            && w.state.directives == [] && w.state.audits == [] && w.state.instanceReviews == []
            && !w.state.pendingWorkspaceReset && w.state.pendingHandoff == 0
  {
  }

  /** What a stopped run reports: its questions, its failure, or its explanation. */
  lemma StoppedReports(arm: Arm, w: World)
    requires Reachable(arm, w) && w.state.currentStage == None
    ensures var outcome := OutcomeOf(w.state);
            && (outcome == AsksUser <==> w.state.pendingQuestions != [])
            && (outcome == RunFailed <==> w.state.failure.Some?)
            && (outcome.Succeeded? <==> w.state.explanation.Some?)
  {
    StoppedHasOutcome(arm, w);
  }

  /** A stage stops at once exactly when an enabled earlier stage it reads from has left nothing. */
  lemma InputsOfStages(arm: Arm, s: AgentState)
    requires s.currentStage.Some?
    ensures s.currentStage == Some(Solving) ==>
              (MissingPrerequisite(arm, s) <==>
                || (Enabled(arm, ProblemContract) && s.problemContract == None)
                || (Enabled(arm, AlgorithmDesign) && s.algorithmDesign == None)
                || (Enabled(arm, GurobiFormulator) && s.gurobiFormulation == None))
    ensures s.currentStage == Some(GurobiFormulator) ==> (MissingPrerequisite(arm, s) <==> s.problemContract == None)
    ensures s.currentStage == Some(FeasibilityReview) ==> (MissingPrerequisite(arm, s) <==> s.solverResult == None)
    ensures Position(s.currentStage.value) < 3 || s.currentStage == Some(Explanation) ==> !MissingPrerequisite(arm, s)
  {
  }
}
