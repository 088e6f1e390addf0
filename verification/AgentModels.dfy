/** Stages, stage results and the persistable state of the optimization agent. */
module AgentModels {
  import opened Wrappers

  datatype Stage =
    | Intake | ProblemContract | AlgorithmDesign | GurobiFormulator | Solving | FeasibilityReview | Explanation

  /** Place of a stage in the sequence of all stages. */
  function Position(stage: Stage): nat {
    match stage
    case Intake => 0
    case ProblemContract => 1
    case AlgorithmDesign => 2
    case GurobiFormulator => 3
    case Solving => 4
    case FeasibilityReview => 5
    case Explanation => 6
  }

  /** A JSON object, by its keys and rendered values. */
  type Doc = map<string, string>

  datatype Message = Message(role: string, content: string)

  /** Which optional stages one workflow arm runs. */
  datatype Arm = Arm(review: bool, design: bool, contract: bool, formulator: bool)

  datatype Decision = Accept | Reject

  /** A reviewer's verdict; an absent responsibility is the empty label. */
  datatype Review = Review(decision: Decision, responsibility: string, summary: string, confidence: string,
                           infeasibilityProof: string, evidence: seq<string>, requiredChanges: seq<string>,
                           handoff: Option<Doc>)

  const INSTANCE := "instance"
  const ALGORITHM_DESIGN := "algorithm_design"
  const GUROBI_FORMULATOR := "gurobi_formulator"
  const SOLVING := "solving"

  /** The contract every verdict meets before it reaches the stage machine. */
  predicate ValidReview(r: Review) {
    match r.decision
    case Accept =>
      r.responsibility == "" && r.requiredChanges == [] && r.infeasibilityProof == "" && r.handoff == None
    case Reject =>
      && r.evidence != []
      && if r.responsibility == INSTANCE
         then r.infeasibilityProof != "" && r.requiredChanges == [] && r.handoff == None
         else r.responsibility in {ALGORITHM_DESIGN, GUROBI_FORMULATOR, SOLVING}
              && r.infeasibilityProof == "" && r.requiredChanges != [] && r.handoff.Some?
  }

  datatype SolverResult = SolverResult(status: string, objective: Option<string>, diagnosis: string,
                                       methods: seq<string>, check: Option<Doc>)

  datatype SolverSummary = SolverSummary(status: string, diagnosis: string, methods: seq<string>)

  /** The verdict that followed a repair; the responsibility is kept for rejections only. */
  datatype Verdict = Verdict(decision: Decision, responsibility: Option<string>)

  datatype Directive = Directive(attempt: nat, responsibility: string, handoff: Doc, solverSummary: SolverSummary,
                                 handoffDir: string, outcome: Option<Verdict>, baselines: Option<seq<string>>)

  datatype InstanceRecord = InstanceRecord(confidence: string, summary: string, infeasibilityProof: string)

  datatype Audit =
    | RepairAudit(attempt: nat, responsibility: string, review: Review, check: Option<Doc>,
                  reportedResponsibility: Option<string>)
    | InstanceAudit(consecutive: nat, record: InstanceRecord, evidence: seq<string>)

  datatype AgentState = AgentState(
    problemDescription: string,
    problemDefinition: Option<Doc>,
    conversation: seq<Message>,
    problemContract: Option<Doc>,
    algorithmDesign: Option<Doc>,
    gurobiFormulation: Option<Doc>,
    generatedCode: string,
    solverResult: Option<SolverResult>,
    feasibilityReview: Option<Review>,
    explanation: Option<Doc>,
    failure: Option<string>,
    currentStage: Option<Stage>,
    pendingQuestions: seq<string>,
    clarificationRounds: nat,
    feasibilityRounds: nat,
    directives: seq<Directive>,
    audits: seq<Audit>,
    instanceReviews: seq<InstanceRecord>,
    pendingWorkspaceReset: bool,
    pendingHandoff: nat)

  function InitialState(problemDescription: string): AgentState {
    AgentState(problemDescription, None, [], None, None, None, "", None, None, None, None, Some(Intake), [], 0, 0,
               [], [], [], false, 0)
  }

  datatype StageData =
    | IntakeData(ready: bool, reply: string, definition: Option<Doc>, questions: seq<string>)
    | ContractData(contract: Doc)
    | DesignData(design: Doc)
    | FormulationData(formulation: Doc)
    | SolvingData(result: SolverResult, generatedCode: Option<string>)
    | ReviewData(review: Review, check: Option<Doc>)
    | ExplanationData(explanation: Doc)

  function StageOf(data: StageData): Stage {
    match data
    case IntakeData(_, _, _, _) => Intake
    case ContractData(_) => ProblemContract
    case DesignData(_) => AlgorithmDesign
    case FormulationData(_) => GurobiFormulator
    case SolvingData(_, _) => Solving
    case ReviewData(_, _) => FeasibilityReview
    case ExplanationData(_) => Explanation
  }

  datatype StageResult =
    | Completed(data: StageData)
    | NeedsClarification(stage: Stage, message: string, questions: seq<string>)
    | Failed(stage: Stage, message: string)

  function ResultStage(result: StageResult): Stage {
    match result
    case Completed(data) => StageOf(data)
    case NeedsClarification(stage, _, _) => stage
    case Failed(stage, _) => stage
  }
}
