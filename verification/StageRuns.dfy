/**
 Whole runs of the Core agent: any sequence of validated stage results, aborted stages
 and user answers from the initial state, with what every reachable state satisfies.
 */
module StageRuns {
  import opened Wrappers
  import opened AgentModels
  import opened FeasibilityRouting
  import opened StageFlow
  import opened VerdictLog

  /** The agent's state and, as history, what was solved and judged since the last resume. */
  datatype World = World(state: AgentState, log: Log)

  datatype Step =
    | Turn(baselines: seq<string>, transcript: seq<Message>, result: StageResult)
    | Abort(message: string)    // an exception before the prepared state was published
    | Answer(message: string)   // the user answers and the run resumes

  function Entries(result: StageResult): Log {
    match result
    case Completed(SolvingData(solved, _)) => [Solved(solved)]
    case Completed(ReviewData(review, check)) => [Judged(review, check)]
    case _ => []
  }

  function Fail(arm: Arm, w: World, s: AgentState, message: string): Result<World>
    requires s.currentStage.Some?
  {
    match ApplyStageResult(arm, s, Failed(s.currentStage.value, message))
    case Ok(failed) => Ok(w.(state := failed))
    case Raises(e) => Raises(e)
  }

  /** One iteration of the agent's loop on a stage whose workspace is prepared. */
  function Execute(arm: Arm, w: World, p: AgentState, transcript: seq<Message>, result: StageResult): Result<World>
    requires p.currentStage.Some?
  {
    if MissingPrerequisite(arm, p) then Fail(arm, w, p, "missing prerequisite")
    else
      var p' := if p.currentStage == Some(Intake) && transcript != [] then p.(conversation := transcript) else p;
      match ApplyStageResult(arm, p', result)
      case Ok(s) => Ok(World(s, w.log + Entries(result)))
      case Raises(e) => Raises(e)
  }

  function Transition(arm: Arm, w: World, step: Step): Result<World> {
    match step
    case Answer(message) =>
      (match Resume(w.state, message)
       case Ok(s) => Ok(World(s, []))
       case Raises(e) => Raises(e))
    case Abort(message) =>
      if w.state.currentStage == None then Raises(MismatchedResult) else Fail(arm, w, w.state, message)
    case Turn(baselines, transcript, result) =>
      if w.state.currentStage == None then Raises(MismatchedResult)
      else
        match Prepare(w.state, baselines)
        case Raises(_) => Fail(arm, w, w.state, "preparation failed")
        case Ok(p) => Execute(arm, w, p, transcript, result)
  }

  /** The contracts stage outputs are validated against before they become results. */
  predicate ValidResult(result: StageResult) {
    match result
    case Completed(IntakeData(ready, _, definition, questions)) =>
      if ready then definition.Some? && definition.value != map[] else questions != []
    case Completed(ReviewData(review, _)) => ValidReview(review)
    case NeedsClarification(stage, _, questions) => stage == Solving && questions != []
    case _ => true
  }

  predicate ValidStep(w: World, step: Step) {
    match step
    case Turn(_, _, result) => w.state.currentStage == Some(ResultStage(result)) && ValidResult(result)
    case Abort(_) => w.state.currentStage.Some?
    case Answer(_) => w.state.currentStage == None && w.state.pendingQuestions != []
  }

  function Start(problemDescription: string): World {
    World(InitialState(problemDescription), [])
  }

  /** The world after a run of valid steps; None when some step is not valid where it is taken. */
  function Run(arm: Arm, w: World, steps: seq<Step>): Option<Result<World>>
    decreases |steps|
  {
    if steps == [] then Some(Ok(w))
    else if !ValidStep(w, steps[0]) then None
    else
      match Transition(arm, w, steps[0])
      case Ok(next) => Run(arm, next, steps[1..])
      case Raises(e) => Some(Raises(e))
  }

  // ---- What every reachable world satisfies --------------------------------

  function Erase(ds: seq<Directive>): (r: seq<Directive>)
    ensures |r| == |ds|
  {
    seq(|ds|, i requires 0 <= i < |ds| => ds[i].(baselines := None))
  }

  /** The incrementally kept bookkeeping is what the log says. */
  ghost predicate Bookkeeping(arm: Arm, w: World) {
    var n := |w.log|;
    && w.state.feasibilityRounds == Repairs(arm, w.log, n)
    && Erase(w.state.directives) == Directives(arm, w.log, n)
    && w.state.audits == Audits(arm, w.log, n)
    && w.state.instanceReviews == StreakRecords(w.log, n)
  }

  predicate EndsWithRepair(arm: Arm, log: Log) {
    log != [] && IsRepair(arm, log[|log| - 1])
  }

  predicate EndsWithAccept(log: Log) {
    log != [] && log[|log| - 1].Judged? && log[|log| - 1].review.decision == Accept
  }

  predicate EndsWithSolve(log: Log) {
    log != [] && log[|log| - 1].Solved?
  }

  /** The last verdict, and it settles the run: an accept, or the third instance verdict in a row. */
  ghost predicate Settled(arm: Arm, w: World) {
    if arm.review
    then (EndsWithAccept(w.log) || Streak(w.log, |w.log|) == 3)
         && w.state.feasibilityReview == Some(w.log[|w.log| - 1].review)
    else EndsWithSolve(w.log) && w.state.feasibilityReview == None
  }

  /** Where in the log each stage can be. */
  ghost predicate Placed(arm: Arm, w: World) {
    match w.state.currentStage
    case Some(FeasibilityReview) =>
      && arm.review
      && (EndsWithSolve(w.log) || Streak(w.log, |w.log|) in {1, 2})
      && w.state.solverResult.Some? && w.state.solverResult == LastResult(w.log, |w.log|)
    case Some(Explanation) => Settled(arm, w)
    case Some(_) => w.log == [] || EndsWithRepair(arm, w.log)
    case None => w.state.explanation.Some? ==> Settled(arm, w)
  }

  /** Outputs of the earlier enabled stages are there when a stage becomes current. */
  ghost predicate Ready(arm: Arm, s: AgentState) {
    && (!arm.contract ==> s.problemContract == None)
    && match s.currentStage
       case None => true
       case Some(Intake) => true
       case Some(ProblemContract) => arm.contract
       case Some(AlgorithmDesign) => arm.design && (arm.contract ==> s.problemContract.Some?)
       case Some(GurobiFormulator) =>
         && (arm.formulator || arm.review)   // the stage is enabled, or a verdict may blame it
         && (arm.contract ==> s.problemContract.Some?) && (arm.design ==> s.algorithmDesign.Some?)
       case Some(_) =>
         && (arm.contract ==> s.problemContract.Some?)
         && (arm.design ==> s.algorithmDesign.Some?)
         && (arm.formulator ==> s.gurobiFormulation.Some?)
  }

  /** A running agent has no outcome; a stopped one has exactly one. */
  ghost predicate OneOutcome(s: AgentState) {
    match s.currentStage
    case Some(_) => s.pendingQuestions == [] && s.failure == None && s.explanation == None
    case None =>
      || (s.pendingQuestions != [] && s.failure == None && s.explanation == None)
      || (s.pendingQuestions == [] && s.failure.Some? && s.explanation == None)
      || (s.pendingQuestions == [] && s.failure == None && s.explanation.Some?)
  }

  /** A pending handoff belongs to the repair that the run was just sent back for. */
  ghost predicate PendingIsLatest(arm: Arm, w: World) {
    w.state.pendingHandoff != 0 ==>
      && w.state.pendingHandoff == w.state.feasibilityRounds
      && EndsWithRepair(arm, w.log)
      && (w.state.currentStage.Some? ==>
            w.state.pendingWorkspaceReset
            && RewindTarget(Routed(arm, w.log[|w.log| - 1].review)) == w.state.currentStage)
  }

  /** At most three verdicts per repair, and at most three after the last one. */
  ghost predicate Bounded(arm: Arm, log: Log) {
    var n := |log|;
    && Streak(log, n) <= 3
    && Verdicts(log, n) <= 3 * Repairs(arm, log, n) + if EndsWithAccept(log) then 3 else Streak(log, n)
  }

  ghost predicate Invariant(arm: Arm, w: World) {
    && Bookkeeping(arm, w)
    && Placed(arm, w)
    && Ready(arm, w.state)
    && OneOutcome(w.state)
    && PendingIsLatest(arm, w)
    && Bounded(arm, w.log)
  }

  // ---- Preparation ---------------------------------------------------------

  lemma {:induction false} LastIsLastWithAttempt(ds: seq<Directive>, attempt: nat)
    requires ds != [] && ds[|ds| - 1].attempt == attempt
    ensures LastWithAttempt(ds, attempt) == Some(|ds| - 1)
  {
  }

  /** A pending handoff names the last directive, which is open and has the matching directory. */
  lemma PendingNamesOpenDirective(arm: Arm, w: World)
    requires Bookkeeping(arm, w) && PendingIsLatest(arm, w) && w.state.pendingHandoff != 0
    ensures var ds := w.state.directives;
            && ds != []
            && ds[|ds| - 1].attempt == w.state.pendingHandoff == |ds|
            && ds[|ds| - 1].outcome == None
            && ds[|ds| - 1].responsibility == Routed(arm, w.log[|w.log| - 1].review)
            && ds[|ds| - 1].handoffDir == HandoffDir(ds[|ds| - 1].responsibility, w.state.pendingHandoff)
            && forall i :: 0 <= i < |ds| - 1 ==> ds[i].attempt != w.state.pendingHandoff && ds[i].outcome.Some?
  {
    var n := |w.log|;
    var ds, ref := w.state.directives, Directives(arm, w.log, n);
    assert ref[|ref| - 1] == DirectiveAt(arm, w.log, n - 1);
    AttemptsCountUp(arm, w.log, n);
    OnlyLastOpen(arm, w.log, n);
    forall i | 0 <= i < |ds|
      ensures ds[i].attempt == ref[i].attempt && ds[i].outcome == ref[i].outcome
           && ds[i].responsibility == ref[i].responsibility && ds[i].handoffDir == ref[i].handoffDir
    {
      assert Erase(ds)[i] == ref[i];
    }
  }

  /** What preparation does: at most it records the baselines on the pending repair's directive. */
  lemma PreparedState(arm: Arm, w: World, baselines: seq<string>)
    requires Bookkeeping(arm, w) && PendingIsLatest(arm, w)
    ensures var s, ds := w.state, w.state.directives;
            var prepared := if s.pendingHandoff == 0 || ds == [] then ds
                            else ds[|ds| - 1 := ds[|ds| - 1].(baselines := Some(baselines))];
            && Prepare(s, baselines) == Ok(s.(directives := prepared, pendingWorkspaceReset := false, pendingHandoff := 0))
            && Erase(prepared) == Erase(ds)
  {
    if w.state.pendingHandoff != 0 {
      PendingNamesOpenDirective(arm, w);
      LastIsLastWithAttempt(w.state.directives, w.state.pendingHandoff);
      ErasedBaselines(w.state.directives, |w.state.directives| - 1, baselines);
    }
  }

  /** Preparation never fails, clears the pending work and keeps every invariant. */
  lemma PrepareKeeps(arm: Arm, w: World, baselines: seq<string>)
    requires Invariant(arm, w)
    ensures Prepare(w.state, baselines).Ok?
    ensures var p := Prepare(w.state, baselines).value;
            && Invariant(arm, w.(state := p))
            && p.pendingHandoff == 0 && !p.pendingWorkspaceReset && p.currentStage == w.state.currentStage
  {
    PreparedState(arm, w, baselines);
    assert Bookkeeping(arm, w.(state := Prepare(w.state, baselines).value));
  }

  /** Recording the prepared baselines is invisible to the bookkeeping. */
  lemma ErasedBaselines(ds: seq<Directive>, i: nat, baselines: seq<string>)
    requires i < |ds|
    ensures Erase(ds[i := ds[i].(baselines := Some(baselines))]) == Erase(ds)
  {
  }

  // ---- One applied result --------------------------------------------------

  lemma CloseNothing(ds: seq<Directive>, e: Entry)
    requires e.Judged? ==> forall i :: 0 <= i < |ds| ==> ds[i].outcome.Some?
    ensures CloseAll(ds, e) == ds
  {
  }

  lemma SolvedStep(arm: Arm, w: World, solved: SolverResult, s: AgentState)
    requires Bookkeeping(arm, w) && Bounded(arm, w.log) && (w.log == [] || EndsWithRepair(arm, w.log))
    requires s.feasibilityRounds == w.state.feasibilityRounds && s.directives == w.state.directives
    requires s.audits == w.state.audits && s.instanceReviews == []
    ensures Bookkeeping(arm, World(s, w.log + [Solved(solved)]))
    ensures Bounded(arm, w.log + [Solved(solved)])
    ensures LastResult(w.log + [Solved(solved)], |w.log| + 1) == Some(solved)
  {
    var n, log' := |w.log|, w.log + [Solved(solved)];
    PrefixStable(arm, w.log, Solved(solved), n);
    AuditsStable(arm, w.log, Solved(solved), n);
    DirectivesAppend(arm, w.log, Solved(solved), n);
    CloseNothing(Directives(arm, w.log, n), Solved(solved));
    assert log'[n] == Solved(solved);
  }

  /** Annotating the state's directives is what the log's directives undergo. */
  lemma AnnotateMatches(arm: Arm, w: World, e: Entry)
    requires Bookkeeping(arm, w) && e.Judged?
    ensures Erase(AnnotateOutcome(w.state.directives, e.review))
         == Directives(arm, w.log + [e], |w.log|)
  {
    var n, ds := |w.log|, w.state.directives;
    var ref := Directives(arm, w.log, n);
    OnlyLastOpen(arm, w.log, n);
    DirectivesAppend(arm, w.log, e, n);
    forall i | 0 <= i < |ds|
      ensures Erase(AnnotateOutcome(ds, e.review))[i] == CloseAll(ref, e)[i]
    {
      assert Erase(ds)[i] == ref[i];
    }
  }

  /** The counters and records after one more verdict. */
  lemma VerdictCounts(arm: Arm, log: Log, e: Entry)
    requires e.Judged?
    ensures var n, log' := |log|, log + [e];
            && Verdicts(log', n + 1) == Verdicts(log, n) + 1
            && Repairs(arm, log', n + 1) == Repairs(arm, log, n) + (if IsRepair(arm, e) then 1 else 0)
            && Streak(log', n + 1) == (if IsInstance(e) then Streak(log, n) + 1 else 0)
            && StreakRecords(log', n + 1)
               == (if IsInstance(e) then StreakRecords(log, n) + [InstanceRecordOf(e.review)] else [])
  {
    assert (log + [e])[|log|] == e;
    PrefixStable(arm, log, e, |log|);
  }

  /** The audit entry of a rejection. */
  function AuditOf(arm: Arm, log: Log, e: Entry): Audit
    requires IsRejection(e)
  {
    var review := e.review;
    if IsInstance(e) then InstanceAudit(Streak(log, |log|) + 1, InstanceRecordOf(review), review.evidence)
    else RepairAudit(Repairs(arm, log, |log|) + 1, Routed(arm, review), review, e.check,
                     if Routed(arm, review) != review.responsibility then Some(review.responsibility) else None)
  }

  lemma AuditOfLast(arm: Arm, log: Log, e: Entry)
    requires IsRejection(e)
    ensures (log + [e])[|log|] == e && AuditAt(arm, log + [e], |log|) == AuditOf(arm, log, e)
  {
    PrefixStable(arm, log, e, |log|);
  }

  /** The audits after one more verdict. */
  lemma VerdictAudits(arm: Arm, log: Log, e: Entry)
    requires e.Judged?
    ensures Audits(arm, log + [e], |log| + 1)
         == Audits(arm, log, |log|) + if IsRejection(e) then [AuditOf(arm, log, e)] else []
  {
    assert (log + [e])[|log|] == e;
    AuditsStable(arm, log, e, |log|);
    if IsRejection(e) {
      AuditOfLast(arm, log, e);
    }
  }

  /** A verdict that is no repair closes the open directive and adds none. */
  lemma VerdictDirectives(arm: Arm, w: World, e: Entry)
    requires Bookkeeping(arm, w) && e.Judged? && !IsRepair(arm, e)
    ensures Erase(AnnotateOutcome(w.state.directives, e.review)) == Directives(arm, w.log + [e], |w.log| + 1)
  {
    assert (w.log + [e])[|w.log|] == e;
    AnnotateMatches(arm, w, e);
    var log' := w.log + [e];
    assert Directives(arm, log', |w.log| + 1) == Directives(arm, log', |w.log|) + [];
  }

  lemma AcceptBookkeeping(arm: Arm, w: World, review: Review, check: Option<Doc>)
    requires Bookkeeping(arm, w) && Bounded(arm, w.log) && review.decision == Accept && !EndsWithAccept(w.log)
    requires Streak(w.log, |w.log|) <= 2
    ensures var r := ApplyReview(arm, w.state, review, check);
            r.Ok? && Bookkeeping(arm, World(r.value, w.log + [Judged(review, check)]))
    ensures Bounded(arm, w.log + [Judged(review, check)])
  {
    VerdictCounts(arm, w.log, Judged(review, check));
    VerdictAudits(arm, w.log, Judged(review, check));
    VerdictDirectives(arm, w, Judged(review, check));
    assert Audits(arm, w.log, |w.log|) + [] == Audits(arm, w.log, |w.log|);
    assert (w.log + [Judged(review, check)])[|w.log|] == Judged(review, check);
  }

  lemma AcceptStep(arm: Arm, w: World, review: Review, check: Option<Doc>)
    requires Invariant(arm, w) && w.state.currentStage == Some(FeasibilityReview)
    requires review.decision == Accept && w.state.pendingHandoff == 0
    ensures var r := ApplyReview(arm, w.state, review, check);
            r.Ok? && Invariant(arm, World(r.value, w.log + [Judged(review, check)]))
  {
    AcceptBookkeeping(arm, w, review, check);
    assert (w.log + [Judged(review, check)])[|w.log|] == Judged(review, check);
  }

  lemma InstanceFields(s: AgentState, review: Review, check: Option<Doc>)
    ensures var s' := ApplyInstance(s, review, check);
            && s'.feasibilityRounds == s.feasibilityRounds
            && s'.directives == AnnotateOutcome(s.directives, review)
            && s'.instanceReviews == s.instanceReviews + [InstanceRecordOf(review)]
            && s'.audits == s.audits + [InstanceAudit(|s.instanceReviews| + 1, InstanceRecordOf(review), review.evidence)]
  {
  }

  /** Bookkeeping after an instance verdict, for any state whose four fields are what it prescribes. */
  lemma InstanceCounts(arm: Arm, w: World, e: Entry, s': AgentState)
    requires Bookkeeping(arm, w) && IsInstance(e)
    requires s'.feasibilityRounds == w.state.feasibilityRounds
    requires s'.directives == AnnotateOutcome(w.state.directives, e.review)
    requires s'.instanceReviews == w.state.instanceReviews + [InstanceRecordOf(e.review)]
    requires s'.audits == w.state.audits + [AuditOf(arm, w.log, e)]
    ensures Bookkeeping(arm, World(s', w.log + [e]))
  {
    InstanceIsNoRepair(arm, e);
    VerdictCounts(arm, w.log, e);
    VerdictAudits(arm, w.log, e);
    VerdictDirectives(arm, w, e);
  }

  lemma InstanceBookkeeping(arm: Arm, w: World, review: Review, check: Option<Doc>)
    requires Bookkeeping(arm, w) && review.decision == Reject && review.responsibility == INSTANCE
    ensures Bookkeeping(arm, World(ApplyInstance(w.state, review, check), w.log + [Judged(review, check)]))
  {
    InstanceFields(w.state, review, check);
    InstanceCounts(arm, w, Judged(review, check), ApplyInstance(w.state, review, check));
  }

  lemma InstanceIsNoRepair(arm: Arm, e: Entry)
    requires IsInstance(e)
    ensures !IsRepair(arm, e) && RewindTarget(Routed(arm, e.review)) == None && Routed(arm, e.review) == INSTANCE
  {
  }

  lemma InstanceBounded(arm: Arm, log: Log, e: Entry)
    requires Bounded(arm, log) && !EndsWithAccept(log) && IsInstance(e) && Streak(log, |log|) <= 2
    ensures Bounded(arm, log + [e])
  {
    InstanceIsNoRepair(arm, e);
    VerdictCounts(arm, log, e);
    assert (log + [e])[|log|] == e;
  }

  /** After an instance verdict every other part of the invariant follows from the length of the streak. */
  lemma InstancePlaces(arm: Arm, w: World, review: Review, check: Option<Doc>)
    requires arm.review && Ready(arm, w.state) && OneOutcome(w.state)
    requires w.state.currentStage == Some(FeasibilityReview) && w.state.pendingHandoff == 0
    requires w.state.solverResult.Some? && w.state.solverResult == LastResult(w.log, |w.log|)
    requires IsInstance(Judged(review, check)) && Streak(w.log, |w.log|) <= 2
    requires |w.state.instanceReviews| == Streak(w.log, |w.log|)
    ensures var w' := World(ApplyInstance(w.state, review, check), w.log + [Judged(review, check)]);
            Placed(arm, w') && Ready(arm, w'.state) && OneOutcome(w'.state) && PendingIsLatest(arm, w')
  {
    var e, n := Judged(review, check), |w.log|;
    var log' := w.log + [e];
    assert log'[n] == e && |log'| == n + 1;
    StreakOfInstance(w.log, e);
    assert LastResult(log', n + 1) == LastResult(w.log, n) by {
      PrefixStable(arm, w.log, e, n);
    }
  }

  lemma StreakOfInstance(log: Log, e: Entry)
    requires IsInstance(e)
    ensures Streak(log + [e], |log| + 1) == Streak(log, |log|) + 1
  {
    assert (log + [e])[|log|] == e;
    PrefixStable(Arm(true, true, true, true), log, e, |log|);
  }

  lemma InstanceStep(arm: Arm, w: World, review: Review, check: Option<Doc>)
    requires Invariant(arm, w) && w.state.currentStage == Some(FeasibilityReview)
    requires review.decision == Reject && review.responsibility == INSTANCE && w.state.pendingHandoff == 0
    ensures var r := ApplyReview(arm, w.state, review, check);
            r.Ok? && Invariant(arm, World(r.value, w.log + [Judged(review, check)]))
  {
    UnderReview(arm, w);
    InstanceIsNoRepair(arm, Judged(review, check));
    assert ApplyReview(arm, w.state, review, check) == Ok(ApplyInstance(w.state, review, check));
    InstanceBookkeeping(arm, w, review, check);
    InstanceBounded(arm, w.log, Judged(review, check));
    InstancePlaces(arm, w, review, check);
  }

  /** A repair closes the open directive and adds its own. */
  lemma RepairDirectives(arm: Arm, w: World, review: Review, check: Option<Doc>)
    requires Bookkeeping(arm, w) && IsRepair(arm, Judged(review, check))
    requires w.state.solverResult.Some? && w.state.solverResult == LastResult(w.log, |w.log|)
    ensures var directive := BuildDirective(w.state.feasibilityRounds + 1, Routed(arm, review), review.handoff.value,
                                            Some(WithCheck(w.state.solverResult, check)));
            Erase(AnnotateOutcome(w.state.directives, review) + [directive])
            == Directives(arm, w.log + [Judged(review, check)], |w.log| + 1)
  {
    var e, n := Judged(review, check), |w.log|;
    var log' := w.log + [e];
    assert log'[n] == e;
    PrefixStable(arm, w.log, e, n);
    AnnotateMatches(arm, w, e);
    var annotated := AnnotateOutcome(w.state.directives, review);
    var directive := BuildDirective(w.state.feasibilityRounds + 1, Routed(arm, review), review.handoff.value,
                                    Some(WithCheck(w.state.solverResult, check)));
    assert directive == DirectiveAt(arm, log', n);
    EraseAppend(annotated, directive);
  }

  lemma EraseAppend(ds: seq<Directive>, d: Directive)
    requires d.baselines == None
    ensures Erase(ds + [d]) == Erase(ds) + [d]
  {
  }

  lemma RepairBookkeeping(arm: Arm, w: World, review: Review, check: Option<Doc>, target: Stage)
    requires Bookkeeping(arm, w) && IsRepair(arm, Judged(review, check))
    requires RewindTarget(Routed(arm, review)) == Some(target) && review.responsibility != INSTANCE
    requires w.state.solverResult.Some? && w.state.solverResult == LastResult(w.log, |w.log|)
    ensures var r := ApplyRepair(arm, w.state, review, check, target);
            r.Ok? && Bookkeeping(arm, World(r.value, w.log + [Judged(review, check)]))
  {
    VerdictCounts(arm, w.log, Judged(review, check));
    VerdictAudits(arm, w.log, Judged(review, check));
    RepairDirectives(arm, w, review, check);
  }

  /** After a repair every other part of the invariant follows from the target stage alone. */
  lemma RepairPlaces(arm: Arm, w: World, review: Review, check: Option<Doc>, target: Stage)
    requires arm.review && Ready(arm, w.state) && OneOutcome(w.state) && w.state.currentStage == Some(FeasibilityReview)
    requires IsRepair(arm, Judged(review, check)) && RewindTarget(Routed(arm, review)) == Some(target)
    requires target == AlgorithmDesign ==> arm.design
    ensures var r := ApplyRepair(arm, w.state, review, check, target);
            var w' := World(r.value, w.log + [Judged(review, check)]);
            r.Ok? && Placed(arm, w') && Ready(arm, w'.state) && OneOutcome(w'.state) && PendingIsLatest(arm, w')
  {
    assert (w.log + [Judged(review, check)])[|w.log|] == Judged(review, check);
  }

  lemma RepairBounded(arm: Arm, log: Log, review: Review, check: Option<Doc>)
    requires Bounded(arm, log) && !EndsWithAccept(log) && Streak(log, |log|) <= 2
    requires IsRepair(arm, Judged(review, check)) && review.responsibility != INSTANCE
    ensures Bounded(arm, log + [Judged(review, check)])
  {
    VerdictCounts(arm, log, Judged(review, check));
    assert (log + [Judged(review, check)])[|log|] == Judged(review, check);
  }

  /** A rejection with a stage's label is a repair of that stage, of an enabled one for the design label. */
  lemma LabelledRejectionIsRepair(arm: Arm, s: AgentState, review: Review, check: Option<Doc>) returns (target: Stage)
    requires review.decision == Reject && review.handoff.Some?
    requires review.responsibility in {ALGORITHM_DESIGN, GUROBI_FORMULATOR, SOLVING}
    ensures RewindTarget(Routed(arm, review)) == Some(target) && review.responsibility != INSTANCE
    ensures target == AlgorithmDesign ==> arm.design
    ensures IsRepair(arm, Judged(review, check))
    ensures ApplyReview(arm, s, review, check) == ApplyRepair(arm, s, review, check, target)
  {
    target := RewindTarget(Routed(arm, review)).value;
  }

  /** The run is under review: a fresh result, and no settled verdict. */
  lemma UnderReview(arm: Arm, w: World)
    requires Placed(arm, w) && w.state.currentStage == Some(FeasibilityReview)
    ensures arm.review && Streak(w.log, |w.log|) <= 2 && !EndsWithAccept(w.log)
    ensures w.state.solverResult.Some? && w.state.solverResult == LastResult(w.log, |w.log|)
  {
  }

  lemma RepairStep(arm: Arm, w: World, review: Review, check: Option<Doc>)
    requires Invariant(arm, w) && w.state.currentStage == Some(FeasibilityReview)
    requires review.decision == Reject && review.handoff.Some?
    requires review.responsibility in {ALGORITHM_DESIGN, GUROBI_FORMULATOR, SOLVING}
    ensures var r := ApplyReview(arm, w.state, review, check);
            r.Ok? && Invariant(arm, World(r.value, w.log + [Judged(review, check)]))
  {
    var target := LabelledRejectionIsRepair(arm, w.state, review, check);
    UnderReview(arm, w);
    RepairBookkeeping(arm, w, review, check, target);
    RepairPlaces(arm, w, review, check, target);
    RepairBounded(arm, w.log, review, check);
  }

  // ---- Every step, every run -----------------------------------------------

  lemma ReviewStep(arm: Arm, w: World, review: Review, check: Option<Doc>)
    requires Invariant(arm, w) && w.state.currentStage == Some(FeasibilityReview)
    requires ValidReview(review) && w.state.pendingHandoff == 0
    ensures var r := ApplyReview(arm, w.state, review, check);
            r.Ok? && Invariant(arm, World(r.value, w.log + [Judged(review, check)]))
  {
    if review.decision == Accept {
      AcceptStep(arm, w, review, check);
    } else if review.responsibility == INSTANCE {
      InstanceStep(arm, w, review, check);
    } else {
      RepairStep(arm, w, review, check);
    }
  }

  lemma SolveStep(arm: Arm, w: World, solved: SolverResult, code: Option<string>)
    requires Invariant(arm, w) && w.state.currentStage == Some(Solving) && w.state.pendingHandoff == 0
    ensures var r := ApplyStageResult(arm, w.state, Completed(SolvingData(solved, code)));
            r.Ok? && Invariant(arm, World(r.value, w.log + [Solved(solved)]))
  {
    var r := ApplyStageResult(arm, w.state, Completed(SolvingData(solved, code)));
    SolvedStep(arm, w, solved, r.value);
    assert (w.log + [Solved(solved)])[|w.log|] == Solved(solved);
  }

  /** The fields that only solves and reviews change. */
  predicate SameReviewFields(s: AgentState, s': AgentState) {
    && s'.feasibilityRounds == s.feasibilityRounds && s'.directives == s.directives && s'.audits == s.audits
    && s'.instanceReviews == s.instanceReviews && s'.feasibilityReview == s.feasibilityReview
    && s'.solverResult == s.solverResult && s'.pendingHandoff == s.pendingHandoff
  }

  lemma SameFieldsKeep(arm: Arm, w: World, s': AgentState)
    requires Invariant(arm, w) && SameReviewFields(w.state, s') && w.state.pendingHandoff == 0
    requires s'.currentStage != Some(FeasibilityReview)
    requires Ready(arm, s') && OneOutcome(s')
    requires match s'.currentStage
             case Some(Explanation) => false
             case Some(_) => w.log == [] || EndsWithRepair(arm, w.log)
             case None => s'.explanation.Some? ==> Settled(arm, w)
    ensures Invariant(arm, w.(state := s'))
  {
    assert Bookkeeping(arm, w.(state := s'));
  }

  /** What a result that is neither a solve nor a review does to the state alone. */
  lemma QuietResult(arm: Arm, s: AgentState, result: StageResult)
    requires Ready(arm, s) && OneOutcome(s)
    requires s.currentStage == Some(ResultStage(result)) && ValidResult(result) && Entries(result) == []
    requires MissingPrerequisite(arm, s) ==> result.Failed?
    ensures var r := ApplyStageResult(arm, s, result);
            && r.Ok? && SameReviewFields(s, r.value) && Ready(arm, r.value) && OneOutcome(r.value)
            && match r.value.currentStage
               case None => r.value.explanation.Some? ==> s.currentStage == Some(Explanation)
               case Some(stage) => stage !in {FeasibilityReview, Explanation}
                                   && s.currentStage.value !in {FeasibilityReview, Explanation}
  {
  }

  /** Results that are neither a solve nor a review leave the log and its bookkeeping alone. */
  lemma QuietStep(arm: Arm, w: World, result: StageResult)
    requires Invariant(arm, w) && w.state.pendingHandoff == 0
    requires w.state.currentStage == Some(ResultStage(result)) && ValidResult(result)
    requires Entries(result) == []
    requires MissingPrerequisite(arm, w.state) ==> result.Failed?
    ensures var r := ApplyStageResult(arm, w.state, result);
            r.Ok? && Invariant(arm, w.(state := r.value))
  {
    QuietResult(arm, w.state, result);
    SameFieldsKeep(arm, w, ApplyStageResult(arm, w.state, result).value);
  }

  lemma FailKeeps(arm: Arm, w: World, message: string)
    requires Invariant(arm, w) && w.state.currentStage.Some?
    ensures Fail(arm, w, w.state, message).Ok? && Invariant(arm, Fail(arm, w, w.state, message).value)
  {
  }

  /** Keeping the transcript of an intake turn touches nothing the invariant is about. */
  lemma TranscriptKeeps(arm: Arm, w: World, transcript: seq<Message>)
    requires Invariant(arm, w)
    ensures Invariant(arm, w.(state := w.state.(conversation := transcript)))
  {
    assert Bookkeeping(arm, w.(state := w.state.(conversation := transcript)));
  }

  lemma ApplyKeeps(arm: Arm, w: World, result: StageResult)
    requires Invariant(arm, w) && w.state.pendingHandoff == 0 && !MissingPrerequisite(arm, w.state)
    requires w.state.currentStage == Some(ResultStage(result)) && ValidResult(result)
    ensures var r := ApplyStageResult(arm, w.state, result);
            r.Ok? && Invariant(arm, World(r.value, w.log + Entries(result)))
  {
    match result {
      case Completed(ReviewData(review, check)) => ReviewStep(arm, w, review, check);
      case Completed(SolvingData(solved, code)) => SolveStep(arm, w, solved, code);
      case _ =>
        QuietStep(arm, w, result);
        assert w.log + Entries(result) == w.log;
    }
  }

  lemma ExecuteKeeps(arm: Arm, w: World, transcript: seq<Message>, result: StageResult)
    requires Invariant(arm, w) && w.state.pendingHandoff == 0
    requires w.state.currentStage == Some(ResultStage(result)) && ValidResult(result)
    ensures var r := Execute(arm, w, w.state, transcript, result);
            r.Ok? && Invariant(arm, r.value)
  {
    if MissingPrerequisite(arm, w.state) {
      FailKeeps(arm, w, "missing prerequisite");
    } else if w.state.currentStage == Some(Intake) && transcript != [] {
      TranscriptKeeps(arm, w, transcript);
      ApplyKeeps(arm, w.(state := w.state.(conversation := transcript)), result);
    } else {
      ApplyKeeps(arm, w, result);
    }
  }

  /** No valid step makes the agent raise, and every one keeps the invariant. */
  lemma StepKeeps(arm: Arm, w: World, step: Step)
    requires Invariant(arm, w) && ValidStep(w, step)
    ensures Transition(arm, w, step).Ok? && Invariant(arm, Transition(arm, w, step).value)
  {
    match step
    case Answer(_) =>
    case Abort(message) => FailKeeps(arm, w, message);
    case Turn(baselines, transcript, result) =>
      PrepareKeeps(arm, w, baselines);
      ExecuteKeeps(arm, w.(state := Prepare(w.state, baselines).value), transcript, result);
  }

  lemma StartInvariant(arm: Arm, problemDescription: string)
    ensures Invariant(arm, Start(problemDescription))
  {
  }

  /** Over every valid run: the agent never raises and the invariant holds at the end. */
  lemma {:induction false} RunKeeps(arm: Arm, w: World, steps: seq<Step>)
    requires Invariant(arm, w) && Run(arm, w, steps).Some?
    ensures Run(arm, w, steps).value.Ok? && Invariant(arm, Run(arm, w, steps).value.value)
    decreases |steps|
  {
    if steps != [] {
      StepKeeps(arm, w, steps[0]);
      RunKeeps(arm, Transition(arm, w, steps[0]).value, steps[1..]);
    }
  }

  // ---- Consequences in every reachable world -------------------------------

  ghost predicate Reachable(arm: Arm, w: World) {
    exists problem, steps :: Run(arm, Start(problem), steps) == Some(Ok(w))
  }

  lemma ReachableInvariant(arm: Arm, w: World)
    requires Reachable(arm, w)
    ensures Invariant(arm, w)
  {
    var problem, steps :| Run(arm, Start(problem), steps) == Some(Ok(w));
    StartInvariant(arm, problem);
    RunKeeps(arm, Start(problem), steps);
  }

  /** The kept fields always equal their recomputation from the whole log. */
  lemma BookkeepingEqualsRecomputation(arm: Arm, w: World)
    requires Reachable(arm, w)
    ensures var s, n := w.state, |w.log|;
            && s.feasibilityRounds == Repairs(arm, w.log, n)
            && Erase(s.directives) == Directives(arm, w.log, n)
            && s.audits == Audits(arm, w.log, n)
            && s.instanceReviews == StreakRecords(w.log, n)
  {
    ReachableInvariant(arm, w);
  }

  /** A stage about to run misses an input exactly when it is the formulator of an arm without a contract. */
  lemma PrerequisitesPresent(arm: Arm, w: World, baselines: seq<string>)
    requires Reachable(arm, w)
    ensures Prepare(w.state, baselines).Ok?
    ensures MissingPrerequisite(arm, Prepare(w.state, baselines).value)
       <==> w.state.currentStage == Some(GurobiFormulator) && !arm.contract
  {
    ReachableInvariant(arm, w);
    PrepareKeeps(arm, w, baselines);
  }

  lemma {:induction false} RunAppend(arm: Arm, w: World, steps: seq<Step>, step: Step)
    requires Run(arm, w, steps).Some? && Run(arm, w, steps).value.Ok?
    requires ValidStep(Run(arm, w, steps).value.value, step)
    ensures Run(arm, w, steps + [step]) == Some(Transition(arm, Run(arm, w, steps).value.value, step))
    decreases |steps|
  {
    if steps == [] {
      assert (steps + [step])[1..] == [];
    } else {
      RunAppend(arm, Transition(arm, w, steps[0]).value, steps[1..], step);
      assert (steps + [step])[1..] == steps[1..] + [step];
    }
  }

  lemma ReachableStep(arm: Arm, w: World, step: Step)
    requires Reachable(arm, w) && ValidStep(w, step)
    ensures Transition(arm, w, step).Ok? && Reachable(arm, Transition(arm, w, step).value)
  {
    ReachableInvariant(arm, w);
    StepKeeps(arm, w, step);
    var problem, steps :| Run(arm, Start(problem), steps) == Some(Ok(w));
    RunAppend(arm, Start(problem), steps, step);
  }

  lemma StartReachable(arm: Arm, problem: string)
    ensures Reachable(arm, Start(problem))
  {
    assert Run(arm, Start(problem), []) == Some(Ok(Start(problem)));
  }

  /** A reachable world whose stage, once prepared, misses its input. */
  ghost predicate MissesInput(arm: Arm, w: World) {
    Reachable(arm, w) && Prepare(w.state, []).Ok? && MissingPrerequisite(arm, Prepare(w.state, []).value)
  }

  /** The formulator stage is entered only in an arm that has it or is reviewed. */
  lemma FormulatorEnabledOrBlamed(arm: Arm, w: World)
    requires Reachable(arm, w) && w.state.currentStage == Some(GurobiFormulator)
    ensures arm.formulator || arm.review
  {
    ReachableInvariant(arm, w);
  }

  /**
   Exactly the arms without a problem contract in which the formulator can be entered, because
   it is enabled or because a verdict may blame it, reach a stage that misses its input.
  */
  lemma ArmsThatMissInputs(arm: Arm)
    ensures (exists w :: MissesInput(arm, w)) <==> !arm.contract && (arm.review || arm.formulator)
  {
    if w :| MissesInput(arm, w) {
      PrerequisitesPresent(arm, w, []);
      FormulatorEnabledOrBlamed(arm, w);
    }
    if !arm.contract && (arm.review || arm.formulator) {
      var w := EnterFormulator(arm);
      PrerequisitesPresent(arm, w, []);
      assert MissesInput(arm, w);
    }
  }

  /** Intake and, where enabled, design: the run is about to formulate or to solve. */
  lemma IntakeAndDesign(arm: Arm) returns (w: World)
    requires !arm.contract
    ensures Reachable(arm, w) && w.state.currentStage == Some(AfterDesign(arm)) && w.state.pendingHandoff == 0
  {
    var definition: Doc := map["goal" := "plan"];
    assert "goal" in definition;
    var intake := Turn([], [], Completed(IntakeData(true, "", Some(definition), [])));
    StartReachable(arm, "");
    ReachableStep(arm, Start(""), intake);
    w := Transition(arm, Start(""), intake).value;
    if arm.design {
      var design := Turn([], [], Completed(DesignData(map[])));
      assert w.state.currentStage == Some(AlgorithmDesign) && w.state.pendingHandoff == 0;
      ReachableStep(arm, w, design);
      w := Transition(arm, w, design).value;
    }
  }

  lemma SolveOnce(arm: Arm, w: World, solved: SolverResult) returns (w': World)
    requires !arm.contract && arm.review
    requires Reachable(arm, w) && w.state.currentStage == Some(Solving) && w.state.pendingHandoff == 0
    ensures Reachable(arm, w') && w'.state.currentStage == Some(FeasibilityReview) && w'.state.pendingHandoff == 0
  {
    var solve := Turn([], [], Completed(SolvingData(solved, None)));
    ReachableStep(arm, w, solve);
    PrerequisitesPresent(arm, w, []);
    w' := Transition(arm, w, solve).value;
  }

  lemma BlameFormulator(arm: Arm, w: World) returns (w': World)
    requires Reachable(arm, w) && w.state.currentStage == Some(FeasibilityReview) && w.state.pendingHandoff == 0
    ensures Reachable(arm, w') && w'.state.currentStage == Some(GurobiFormulator)
  {
    var review := Review(Reject, GUROBI_FORMULATOR, "", "", "", ["wrong bound"], ["fix it"], Some(map[]));
    var turn := Turn([], [], Completed(ReviewData(review, None)));
    ReachableStep(arm, w, turn);
    PrerequisitesPresent(arm, w, []);
    w' := Transition(arm, w, turn).value;
  }

  lemma EnterFormulator(arm: Arm) returns (w: World)
    requires !arm.contract && (arm.review || arm.formulator)
    ensures Reachable(arm, w) && w.state.currentStage == Some(GurobiFormulator)
  {
    w := IntakeAndDesign(arm);
    if !arm.formulator {
      w := SolveOnce(arm, w, SolverResult("", None, "", [], None));
      w := BlameFormulator(arm, w);
    }
  }

  /** In the arm that only drops the problem contract, such a verdict makes the run fail. */
  lemma FormulatorBlamedWithoutContract(arm: Arm) returns (w: World)
    requires arm == Arm(true, true, false, false)
    ensures Reachable(arm, w) && w.state.failure == Some("missing prerequisite")
  {
    var blamed := EnterFormulator(arm);
    var turn := Turn([], [], Completed(FormulationData(map[])));
    ReachableStep(arm, blamed, turn);
    PrerequisitesPresent(arm, blamed, []);
    w := Transition(arm, blamed, turn).value;
  }

  lemma {:induction false} AuditsGrow(arm: Arm, log: Log, n: nat)
    requires 0 < n <= |log|
    ensures IsInstance(log[n - 1]) ==>
              Audits(arm, log, n) != []
              && Audits(arm, log, n)[|Audits(arm, log, n)| - 1].InstanceAudit?
              && Audits(arm, log, n)[..|Audits(arm, log, n)| - 1] == Audits(arm, log, n - 1)
  {
  }

  lemma {:induction false} DropTailOfStreak(arm: Arm, log: Log, n: nat, k: nat)
    requires n <= |log| && k <= Streak(log, n)
    ensures k <= n && DropInstanceTail(Audits(arm, log, n), k) == Audits(arm, log, n - k)
  {
    if k > 0 {
      AuditsGrow(arm, log, n);
      DropTailOfStreak(arm, log, n - 1, k - 1);
    }
  }

  lemma VisibleOfStreak(arm: Arm, log: Log, records: seq<InstanceRecord>)
    requires |records| == Streak(log, |log|)
    ensures var n := |log|;
            var open := if Streak(log, n) < 3 then Streak(log, n) else 0;
            open <= n && VisibleHistory(Audits(arm, log, n), records) == Audits(arm, log, n - open)
  {
    if |records| < 3 {
      DropTailOfStreak(arm, log, |log|, |records|);
    }
  }

  /** A reviewer sees every audit except exactly the verdicts of the instance run still open. */
  lemma VisibleHistoryWithholdsOpenRun(arm: Arm, w: World)
    requires Reachable(arm, w)
    ensures var n := |w.log|;
            var open := if Streak(w.log, n) < 3 then Streak(w.log, n) else 0;
            open <= n && VisibleHistory(w.state.audits, w.state.instanceReviews) == Audits(arm, w.log, n - open)
  {
    BookkeepingEqualsRecomputation(arm, w);
    VisibleOfStreak(arm, w.log, w.state.instanceReviews);
  }

  lemma {:induction false} NoVerdictSince(log: Log, n: nat)
    requires n <= |log|
    ensures NextVerdict(log, n) == None <==> forall i :: n <= i < |log| ==> log[i].Solved?
    decreases |log| - n
  {
    if n < |log| {
      NoVerdictSince(log, n + 1);
    }
  }

  /** k is the position of the last repair among the first n entries. */
  predicate LastRepair(arm: Arm, log: Log, n: nat, k: nat)
    requires n <= |log|
  {
    k < n && IsRepair(arm, log[k]) && forall i :: k < i < n ==> !IsRepair(arm, log[i])
  }

  lemma {:induction false} FindLastRepair(arm: Arm, log: Log, n: nat) returns (k: nat)
    requires n <= |log| && Repairs(arm, log, n) > 0
    ensures LastRepair(arm, log, n, k)
  {
    var last := n - 1;
    if IsRepair(arm, log[last]) {
      k := last;
    } else {
      assert Repairs(arm, log, n) == Repairs(arm, log, last);
      k := FindLastRepair(arm, log, last);
    }
  }

  lemma {:induction false} RepairIsCounted(arm: Arm, log: Log, n: nat, k: nat)
    requires k < n <= |log| && IsRepair(arm, log[k])
    ensures Repairs(arm, log, n) > 0
  {
    if k < n - 1 {
      RepairIsCounted(arm, log, n - 1, k);
    }
  }

  /** A repair's directive is the last one right behind it. */
  lemma DirectiveOfRepair(arm: Arm, log: Log, k: nat, n: nat)
    requires n == k + 1 <= |log| && IsRepair(arm, log[k])
    ensures Directives(arm, log, n) == Directives(arm, log, k) + [DirectiveAt(arm, log, k)]
  {
  }

  lemma NoDirective(arm: Arm, log: Log, k: nat, n: nat)
    requires n == k + 1 <= |log| && !IsRepair(arm, log[k])
    ensures Directives(arm, log, n) == Directives(arm, log, k)
  {
  }

  lemma {:induction false} LastDirectiveIsLastRepair(arm: Arm, log: Log, n: nat, k: nat)
    requires n <= |log| && LastRepair(arm, log, n, k)
    ensures Directives(arm, log, n) == Directives(arm, log, k) + [DirectiveAt(arm, log, k)]
  {
    var last := n - 1;
    if k == last {
      DirectiveOfRepair(arm, log, k, n);
    } else {
      NoDirective(arm, log, last, n);
      LastDirectiveIsLastRepair(arm, log, last, k);
    }
  }

  /** The last repair, when only solves have followed it. */
  predicate UnjudgedRepair(arm: Arm, log: Log, k: nat) {
    k < |log| && IsRepair(arm, log[k]) && forall i :: k < i < |log| ==> log[i].Solved?
  }

  lemma OpenDirectiveIsUnjudgedRepair(arm: Arm, log: Log)
    ensures ReviewerInstructed(Directives(arm, log, |log|)) <==> exists k: nat :: UnjudgedRepair(arm, log, k)
  {
    var n, ds := |log|, Directives(arm, log, |log|);
    if ds != [] {
      var last := FindLastRepair(arm, log, n);
      LastDirectiveIsLastRepair(arm, log, n, last);
      NoVerdictSince(log, last + 1);
      if ReviewerInstructed(ds) {
        assert UnjudgedRepair(arm, log, last);
      }
      if k: nat :| UnjudgedRepair(arm, log, k) {
        assert k == last;
      }
    } else if k: nat :| UnjudgedRepair(arm, log, k) {
      RepairIsCounted(arm, log, n, k);
    }
  }

  lemma ErasedInstruction(ds: seq<Directive>)
    ensures ReviewerInstructed(Erase(ds)) <==> ReviewerInstructed(ds)
  {
  }

  /** The review stage is told about a repair exactly when no verdict has followed it yet. */
  lemma ReviewerInstructedWhileUnjudged(arm: Arm, w: World)
    requires Reachable(arm, w)
    ensures ReviewerInstructed(w.state.directives) <==> exists k: nat :: UnjudgedRepair(arm, w.log, k)
  {
    BookkeepingEqualsRecomputation(arm, w);
    ErasedInstruction(w.state.directives);
    OpenDirectiveIsUnjudgedRepair(arm, w.log);
  }

  /** The last logged entry is a repair, so its directive is the last one and open. */
  lemma LastDirectiveOfRepair(arm: Arm, w: World)
    requires Bookkeeping(arm, w) && EndsWithRepair(arm, w.log)
    ensures w.state.directives != []
    ensures var d := w.state.directives[|w.state.directives| - 1];
            d.outcome == None && d.responsibility == Routed(arm, w.log[|w.log| - 1].review)
  {
    var n, ds := |w.log|, w.state.directives;
    var ref := Directives(arm, w.log, n);
    assert ref == Directives(arm, w.log, n - 1) + [DirectiveAt(arm, w.log, n - 1)];
    assert Erase(ds)[|ds| - 1] == ref[|ref| - 1];
  }

  lemma EmptyLogHasNoDirectives(arm: Arm, w: World)
    requires Bookkeeping(arm, w) && w.log == []
    ensures w.state.directives == []
  {
    assert |Erase(w.state.directives)| == 0;
  }

  /** Before review, the stage instructed to repair is exactly the one the last verdict was routed to. */
  lemma InstructedStageIsResponsible(arm: Arm, w: World, stage: Stage)
    requires Reachable(arm, w) && w.state.currentStage.Some?
    requires w.state.currentStage.value !in {FeasibilityReview, Explanation}
    ensures ExecutorInstructed(w.state.directives, stage)
       <==> EndsWithRepair(arm, w.log) && RewindTarget(Routed(arm, w.log[|w.log| - 1].review)) == Some(stage)
  {
    ReachableInvariant(arm, w);
    if w.log == [] {
      EmptyLogHasNoDirectives(arm, w);
    } else {
      assert EndsWithRepair(arm, w.log);
      LastDirectiveOfRepair(arm, w);
    }
  }

  /** The stage a repair sends the run back to enters with its instruction and its handoff directory. */
  lemma RepairReachesItsStage(arm: Arm, w: World, baselines: seq<string>)
    requires Reachable(arm, w) && w.state.pendingHandoff != 0 && w.state.currentStage.Some?
    ensures Prepare(w.state, baselines).Ok?
    ensures var ds := Prepare(w.state, baselines).value.directives;
            && ExecutorInstructed(ds, w.state.currentStage.value)
            && ds[|ds| - 1].baselines == Some(baselines)
            && ds[|ds| - 1].attempt == w.state.feasibilityRounds
  {
    ReachableInvariant(arm, w);
    PrepareKeeps(arm, w, baselines);
    PendingNamesOpenDirective(arm, w);
    LastIsLastWithAttempt(w.state.directives, w.state.pendingHandoff);
  }

  /** A run that succeeds under review ended on an accept or on three instance verdicts in a row. */
  lemma SuccessIsSettled(arm: Arm, w: World)
    requires Reachable(arm, w) && arm.review && OutcomeOf(w.state).Succeeded?
    ensures var n := |w.log|;
            && (EndsWithAccept(w.log)
                || (n >= 3 && forall i :: n - 3 <= i < n ==> IsInstance(w.log[i])))
            && (OutcomeOf(w.state).status == "instance_infeasible"
                <==> n >= 3 && forall i :: n - 3 <= i < n ==> IsInstance(w.log[i]))
            && (OutcomeOf(w.state).status == "succeeded" <==> EndsWithAccept(w.log))
  {
    ReachableInvariant(arm, w);
    var n := |w.log|;
    StreakIsMaximalRun(w.log, n);
    if EndsWithAccept(w.log) {
      assert !IsInstance(w.log[n - 1]);
    } else {
      assert IsInstance(w.log[n - 1]);
    }
  }

  /** Without review, the last thing logged before success is a solve. */
  lemma SuccessWithoutReview(arm: Arm, w: World)
    requires Reachable(arm, w) && !arm.review && OutcomeOf(w.state).Succeeded?
    ensures EndsWithSolve(w.log) && OutcomeOf(w.state).status == "succeeded"
  {
    ReachableInvariant(arm, w);
  }

  /** Reviews per run are bounded by the repairs they caused. */
  lemma ReviewsBounded(arm: Arm, w: World)
    requires Reachable(arm, w)
    ensures Verdicts(w.log, |w.log|) <= 3 * w.state.feasibilityRounds + 3
  {
    ReachableInvariant(arm, w);
  }

  /** A stopped agent always has one outcome to publish, so it never reports a protocol error. */
  lemma StoppedHasOutcome(arm: Arm, w: World)
    requires Reachable(arm, w)
    ensures OneOutcome(w.state)
    ensures w.state.currentStage == None ==> OutcomeOf(w.state) != ProtocolError
  {
    ReachableInvariant(arm, w);
  }
}
