/**
 Whole runs of the agent together with their workspace: what preparation, the stages' tools and
 their commands do to the files between one Solving session and the next.
*/
module WorkspaceRuns {
  import opened Wrappers
  import opened AgentModels
  import opened AccessPolicy
  import opened AccessTables
  import opened Workspace
  import opened FeasibilityRouting
  import opened StageFlow
  import opened VerdictLog
  import opened StageRuns
  import Handoff
  import Receipts = SolvingReceipts
  import Checking = CheckerReceipts

  /** What a stage other than Solving can do to files. */
  datatype ToolCall =
    | Write(path: FileName, content: Content)      // write_file, replace_in_file
    | Delete(path: FileName)
    | Shell(command: Command)
    | Check(launch: Checking.Launch)              // the feasibility checker
    | Record(stage: Stage, content: Content)       // the stage's validated output

  datatype Policy = Policy(general: seq<Rule>, solving: Receipts.Checks, reviewing: Checking.Checks)

  /** No stage may write the receipt, and every stage's snapshot restores it. */
  ghost predicate ProtectsReceipt(rules: seq<Rule>, receipt: FileName) {
    forall stage: Stage :: receipt in ProtectedPaths(rules, stage) && !MayWrite(rules, stage, receipt)
  }

  ghost predicate SoundPolicy(p: Policy) {
    && ProtectsReceipt(p.general, SolverReceiptFile) && ProtectsReceipt(p.general, CheckReceipt)
    && ProtectsReceipt(p.reviewing.rules, SolverReceiptFile) && Checking.ProtectsEvidence(p.reviewing.rules)
    && ProtectsReceipt(p.solving.rules, CheckReceipt) && Receipts.ProtectsSolution(p.solving.rules)
  }

  /** A rule that names no writer protects its file from every stage, and submission changes none of the receipts. */
  lemma WriterlessProtects(rules: seq<Rule>, receipt: FileName, i: nat)
    requires |rules| == RULE_COUNT && forall k :: 0 <= k < RULE_COUNT ==> rules[k].place == DefaultRule(k).place
    requires i < RULE_COUNT && rules[i].place == TheFile(receipt) && rules[i].writers == Some({})
    requires receipt in {SolverReceiptFile, CheckReceipt}
    ensures ProtectsReceipt(rules, receipt)
  {
    forall stage: Stage
      ensures receipt in ProtectedPaths(rules, stage) && !MayWrite(rules, stage, receipt)
    {
      OwnRuleDecides(rules, stage, receipt, i);
    }
  }

  /** The policy in force: the default rules, with submission through its tool while solving. */
  lemma PolicyInForceIsSound(p: Policy)
    requires p.general == p.reviewing.rules == DefaultRules()
    requires p.solving.rules == WithSolvingOutcomeSubmission(DefaultRules())
    ensures SoundPolicy(p)
  {
    var rules, submitting := DefaultRules(), WithSolvingOutcomeSubmission(DefaultRules());
    assert DefaultRule(17) == FileRule(SolverReceiptFile, {}, {AlgorithmDesign});
    assert DefaultRule(19) == FileRule(CheckReceipt, {}, {AlgorithmDesign, Solving});
    assert rules[17] == DefaultRule(17) && rules[19] == DefaultRule(19) && submitting[19] == DefaultRule(19);
    WriterlessProtects(rules, SolverReceiptFile, 17);
    WriterlessProtects(rules, CheckReceipt, 19);
    WriterlessProtects(submitting, CheckReceipt, 19);
    Receipts.SolvingRulesProtectSolution();
    Checking.ReviewRulesProtectEvidence();
  }

  // ---- Tools of the other stages -------------------------------------------

  ghost function UseTool(p: Policy, stage: Stage, files: Files, call: ToolCall): Files {
    match call
    case Write(path, content) => if MayWrite(p.general, stage, path) then files[path := content] else files
    case Delete(path) => if MayWrite(p.general, stage, path) then files - {path} else files
    case Shell(command) => AfterCommand(p.general, stage, {}, files, command)
    case Check(launch) =>
      if stage == FeasibilityReview then Checking.AfterChecker(p.reviewing, files, launch) else files
    case Record(output, content) => files[StageOutput(output) := content]
  }

  ghost function UseTools(p: Policy, stage: Stage, files: Files, calls: seq<ToolCall>): Files
    decreases |calls|
  {
    if calls == [] then files else UseTools(p, stage, UseTool(p, stage, files, calls[0]), calls[1..])
  }

  lemma CommandCreatesNone(rules: seq<Rule>, stage: Stage, exempt: set<FileName>, files: Files, command: Command,
                           f: FileName)
    requires f in ProtectedPaths(rules, stage) - exempt && f !in files
    ensures f !in AfterCommand(rules, stage, exempt, files, command)
  {
    LookupAfter(rules, stage, exempt, files, command, f);
    assert Lookup(files, f) == None;
  }

  lemma CheckerCreatesNoSolverReceipt(c: Checking.Checks, files: Files, launch: Checking.Launch)
    requires SolverReceiptFile in ProtectedPaths(c.rules, FeasibilityReview) && SolverReceiptFile !in files
    ensures SolverReceiptFile !in Checking.AfterChecker(c, files, launch)
  {
    if launch.Launched? {
      CommandCreatesNone(c.rules, FeasibilityReview, {CheckResult}, files - {CheckReceipt, CheckResult}, launch.command,
                         SolverReceiptFile);
    }
  }

  /** The rules keep a stage's tools from creating the receipt, unless the stage's checker produces it. */
  ghost predicate Guards(p: Policy, stage: Stage, receipt: FileName) {
    && receipt in ProtectedPaths(p.general, stage) && !MayWrite(p.general, stage, receipt)
    && SolverReceiptFile in ProtectedPaths(p.reviewing.rules, FeasibilityReview)
    && (receipt == SolverReceiptFile || (receipt == CheckReceipt && stage != FeasibilityReview))
  }

  /** A tool or command of a stage creates a receipt only if it is the one that produces it. */
  lemma ToolCreatesNoReceipt(p: Policy, stage: Stage, files: Files, call: ToolCall, receipt: FileName)
    requires Guards(p, stage, receipt) && receipt !in files
    ensures receipt !in UseTool(p, stage, files, call)
  {
    match call {
      case Shell(command) => CommandCreatesNone(p.general, stage, {}, files, command, receipt);
      case Check(launch) =>
        if stage == FeasibilityReview {
          CheckerCreatesNoSolverReceipt(p.reviewing, files, launch);
        }
      case _ =>
    }
  }

  lemma {:induction false} ToolsCreateNoReceipt(p: Policy, stage: Stage, files: Files, calls: seq<ToolCall>,
                                               receipt: FileName)
    requires Guards(p, stage, receipt) && receipt !in files
    ensures receipt !in UseTools(p, stage, files, calls)
    decreases |calls|
  {
    if calls != [] {
      ToolCreatesNoReceipt(p, stage, files, calls[0], receipt);
      ToolsCreateNoReceipt(p, stage, UseTool(p, stage, files, calls[0]), calls[1..], receipt);
    }
  }

  lemma SolverCreatesNoCheckReceipt(c: Receipts.Checks, s: Receipts.Session, launch: Receipts.Launch)
    requires CheckReceipt in ProtectedPaths(c.rules, Solving) && CheckReceipt !in s.files
    ensures CheckReceipt !in Receipts.AfterSolver(c, s, launch).files
  {
    if launch.Launched? {
      CommandCreatesNone(c.rules, Solving, {Solution}, s.files - {Solution, SolverReceiptFile}, launch.command,
                         CheckReceipt);
    }
  }

  lemma ShellCreatesNoCheckReceipt(c: Receipts.Checks, s: Receipts.Session, command: Command, timedOut: bool)
    requires CheckReceipt in ProtectedPaths(c.rules, Solving) && CheckReceipt !in s.files
    ensures CheckReceipt !in Receipts.AfterShell(c, s, command, timedOut).files
  {
    CommandCreatesNone(c.rules, Solving, {}, s.files, command, CheckReceipt);
  }

  /** No tool of Solving creates a checker receipt. */
  lemma SolvingCreatesNoCheckReceipt(c: Receipts.Checks, s: Receipts.Session, call: Receipts.Call)
    requires CheckReceipt in ProtectedPaths(c.rules, Solving) && !MayWrite(c.rules, Solving, CheckReceipt)
    requires CheckReceipt !in s.files
    ensures CheckReceipt !in Receipts.Step(c, s, call).files
  {
    match call {
      case RunShell(command, timedOut) => ShellCreatesNoCheckReceipt(c, s, command, timedOut);
      case RunSolver(launch) => SolverCreatesNoCheckReceipt(c, s, launch);
      case _ =>
    }
  }

  lemma {:induction false} SessionCreatesNoCheckReceipt(c: Receipts.Checks, s: Receipts.Session,
                                                       calls: seq<Receipts.Call>)
    requires CheckReceipt in ProtectedPaths(c.rules, Solving) && !MayWrite(c.rules, Solving, CheckReceipt)
    requires CheckReceipt !in s.files
    ensures CheckReceipt !in Receipts.RunCalls(c, s, calls).files
    decreases |calls|
  {
    if calls != [] {
      SolvingCreatesNoCheckReceipt(c, s, calls[0]);
      SessionCreatesNoCheckReceipt(c, Receipts.Step(c, s, calls[0]), calls[1..]);
    }
  }

  // ---- What the tools in force do, file by file ----------------------------

  /** The stage may write the file with its tools. */
  predicate Writes(stage: Stage, f: FileName) {
    Writers(f) == None || stage in Writers(f).value
  }

  lemma EditInForce(p: Policy, stage: Stage, files: Files, path: FileName, content: Content, f: FileName)
    requires p.general == DefaultRules()
    ensures Lookup(UseTool(p, stage, files, Write(path, content)), f)
         == if f == path && Writes(stage, f) then Some(content) else Lookup(files, f)
    ensures Lookup(UseTool(p, stage, files, Delete(path)), f)
         == if f == path && Writes(stage, f) then None else Lookup(files, f)
  {
    DefaultMayWrite(stage, path);
  }

  lemma GuardedInForce(stage: Stage, files: Files, f: FileName)
    ensures f in Guarded(DefaultRules(), stage, {}, files)
       <==> (Fixed(f) && !Writes(stage, f)) || (f in files && HiddenFrom(stage, f))
  {
    DefaultProtects(stage, f);
    BothHideAlike();
    HiddenFiles(DefaultRules(), stage, files.Keys, f);
  }

  /** A command decides about all files but the fixed ones of others and those hidden from its stage. */
  lemma CommandInForce(p: Policy, stage: Stage, files: Files, command: Command, f: FileName)
    requires p.general == DefaultRules()
    ensures Lookup(UseTool(p, stage, files, Shell(command)), f)
         == if (Fixed(f) && !Writes(stage, f)) || (f in files && HiddenFrom(stage, f)) then Lookup(files, f)
            else Lookup(command(Visible(p.general, stage, files)), f)
  {
    GuardedInForce(stage, files, f);
    LookupAfter(p.general, stage, {}, files, command, f);
  }

  /** A stage's output is recorded in its file, and only the review stage can check. */
  lemma RecordAndCheck(p: Policy, stage: Stage, files: Files, output: Stage, content: Content, launch: Checking.Launch)
    ensures UseTool(p, stage, files, Record(output, content)) == files[StageOutput(output) := content]
    ensures UseTool(p, stage, files, Check(launch))
         == if stage == FeasibilityReview
            then Checking.Step(p.reviewing, Checking.Session(files, None), Checking.RunChecker(launch)).files
            else files
  {
  }

  // ---- The agent and its workspace -----------------------------------------

  datatype Site = Site(world: World, files: Files)

  /** A step of the agent with what its stage did to the files; an aborted stage may leave anything. */
  datatype Work = Work(step: Step, history: Content, calls: seq<ToolCall>, solverCalls: seq<Receipts.Call>,
                       debris: Files)

  function StageOfLabel(responsibility: string): Stage {
    if responsibility == GUROBI_FORMULATOR then GurobiFormulator
    else if responsibility == ALGORITHM_DESIGN then AlgorithmDesign
    else Solving
  }

  /** Copy the repair baselines, then clear what the stage will redo, then publish the review history. */
  function PreparedFiles(s: AgentState, files: Files, history: Content): Files
    requires s.currentStage.Some?
  {
    var copied :=
      match LastWithAttempt(s.directives, s.pendingHandoff)
      case None => files
      case Some(i) =>
        if s.pendingHandoff == 0 then files
        else
          var stage := StageOfLabel(s.directives[i].responsibility);
          Handoff.CopyBaselines(Handoff.Retire(files, stage, s.pendingHandoff), stage, s.pendingHandoff,
                                Handoff.HandoffFiles(stage));
    var reset := if s.pendingWorkspaceReset then Handoff.Reset(copied, s.currentStage.value) else copied;
    reset[ReviewHistory := history]
  }

  /** Without a pending repair, preparation clears what the stage will redo and publishes the history. */
  lemma PreparedWithoutRepair(s: AgentState, files: Files, history: Content)
    requires s.currentStage.Some? && s.pendingHandoff == 0
    ensures PreparedFiles(s, files, history)
         == (if s.pendingWorkspaceReset then Handoff.Reset(files, s.currentStage.value) else files)
            [ReviewHistory := history]
  {
  }

  lemma RepairedStage(responsibility: string, stage: Stage)
    requires RewindTarget(responsibility) == Some(stage)
    ensures StageOfLabel(responsibility) == stage
  {
  }

  lemma PreparedIsRewound(s: AgentState, files: Files, history: Content, d: Directive, stage: Stage)
    requires s.pendingHandoff != 0 && s.pendingWorkspaceReset && s.currentStage == Some(stage)
    requires var i := LastWithAttempt(s.directives, s.pendingHandoff); i.Some? && s.directives[i.value] == d
    requires StageOfLabel(d.responsibility) == stage
    ensures PreparedFiles(s, files, history)
         == Handoff.Rewound(files, stage, s.pendingHandoff)[ReviewHistory := history]
  {
  }

  /** For a pending repair the stage it is sent back to starts in its rewound workspace. */
  lemma PreparedForRepair(arm: Arm, w: World, files: Files, history: Content)
    requires Reachable(arm, w) && w.state.pendingHandoff != 0 && w.state.currentStage.Some?
    ensures PreparedFiles(w.state, files, history)
         == Handoff.Rewound(files, w.state.currentStage.value, w.state.feasibilityRounds)[ReviewHistory := history]
  {
    ReachableInvariant(arm, w);
    PendingNamesOpenDirective(arm, w);
    LastIsLastWithAttempt(w.state.directives, w.state.pendingHandoff);
    var last := w.state.directives[|w.state.directives| - 1];
    RepairedStage(last.responsibility, w.state.currentStage.value);
    PreparedIsRewound(w.state, files, history, last, w.state.currentStage.value);
  }

  /**
   What a repaired stage starts with: the rejected candidate is in its attempt's directory,
   and neither candidate nor receipt nor check is where the stage will put its own.
  */
  lemma RepairStartsFromRejected(arm: Arm, w: World, files: Files, history: Content)
    requires Reachable(arm, w) && w.state.pendingHandoff != 0 && w.state.currentStage.Some? && Solution in files
    ensures var stage, after := w.state.currentStage.value, PreparedFiles(w.state, files, history);
            && stage in {AlgorithmDesign, GurobiFormulator, Solving}
            && Lookup(after, HandoffFile(stage, w.state.feasibilityRounds, "previous_solution.json"))
               == Some(files[Solution])
            && Lookup(after, ReviewHistory) == Some(history)
            && Solution !in after && SolverReceiptFile !in after && CheckResult !in after && CheckReceipt !in after
  {
    PendingStage(arm, w);
    PreparedForRepair(arm, w, files, history);
    RewoundStart(files, w.state.currentStage.value, w.state.feasibilityRounds, history);
  }

  lemma PendingStage(arm: Arm, w: World)
    requires Reachable(arm, w) && w.state.pendingHandoff != 0 && w.state.currentStage.Some?
    ensures w.state.currentStage.value in {AlgorithmDesign, GurobiFormulator, Solving}
  {
    ReachableInvariant(arm, w);
  }

  lemma RewoundStart(files: Files, stage: Stage, attempt: nat, history: Content)
    requires stage in {AlgorithmDesign, GurobiFormulator, Solving} && Solution in files
    ensures var after := Handoff.Rewound(files, stage, attempt)[ReviewHistory := history];
            && Lookup(after, HandoffFile(stage, attempt, "previous_solution.json")) == Some(files[Solution])
            && Lookup(after, ReviewHistory) == Some(history)
            && Solution !in after && SolverReceiptFile !in after && CheckResult !in after && CheckReceipt !in after
  {
    var after := Handoff.Rewound(files, stage, attempt);
    CandidateKept(files, stage, attempt);
    Handoff.RewindClearsReceipts(files, stage, attempt);
    assert Lookup(after, HandoffFile(stage, attempt, "previous_solution.json")).Some?;
  }

  lemma CandidateKept(files: Files, stage: Stage, attempt: nat)
    requires stage in {AlgorithmDesign, GurobiFormulator, Solving} && Solution in files
    ensures Lookup(Handoff.Rewound(files, stage, attempt), HandoffFile(stage, attempt, "previous_solution.json"))
         == Some(files[Solution])
  {
    Handoff.BaselinesByStage(files, attempt);
    if stage == Solving {
      assert Handoff.CopiedTo(files, Handoff.Rewound(files, Solving, attempt), Solution,
                              HandoffFile(Solving, attempt, "previous_solution.json"));
    }
  }

  /** The session a Solving stage starts with. */
  function FirstSession(files: Files): Receipts.Session {
    Receipts.Session(files, None, None, false)
  }

  ghost function WorkedFiles(p: Policy, stage: Stage, files: Files, work: Work): Files {
    if stage == Solving then Receipts.RunCalls(p.solving, FirstSession(files), work.solverCalls).files
    else UseTools(p, stage, files, work.calls)
  }

  ghost function FilesAfter(p: Policy, site: Site, work: Work): Files {
    match work.step
    case Answer(_) => site.files
    case Abort(_) => work.debris
    case Turn(_, _, _) =>
      if site.world.state.currentStage == None then site.files
      else WorkedFiles(p, site.world.state.currentStage.value,
                       PreparedFiles(site.world.state, site.files, work.history), work)
  }

  /** A run so far: from a workspace without receipts, one work after the other. */
  datatype Course = Begin(problem: string, files: Files) | Then(before: Course, work: Work)

  ghost function SiteOf(p: Policy, arm: Arm, course: Course): Site {
    match course
    case Begin(problem, files) => Site(Start(problem), files)
    case Then(before, work) => After(p, arm, SiteOf(p, arm, before), work)
  }

  ghost function After(p: Policy, arm: Arm, site: Site, work: Work): Site {
    match Transition(arm, site.world, work.step)
    case Ok(world) => Site(world, FilesAfter(p, site, work))
    case Raises(_) => site
  }

  ghost predicate IsRun(p: Policy, arm: Arm, course: Course) {
    match course
    case Begin(_, files) => SolverReceiptFile !in files && CheckReceipt !in files
    case Then(before, work) => IsRun(p, arm, before) && ValidStep(SiteOf(p, arm, before).world, work.step)
  }

  // ---- Every session starts fresh ------------------------------------------

  /** Receipts are around only behind the stage that makes them, or where the coming preparation removes them. */
  predicate ReceiptsConfined(site: Site) {
    var s := site.world.state;
    match s.currentStage
    case None => true
    case Some(stage) =>
      && (SolverReceiptFile in site.files ==> stage in {FeasibilityReview, Explanation} || s.pendingWorkspaceReset)
      && (CheckReceipt in site.files ==> stage == Explanation || s.pendingWorkspaceReset)
  }

  lemma {:induction false} CopiesCreateNoReceipt(files: Files, stage: Stage, attempt: nat,
                                                baselines: seq<Handoff.Baseline>, receipt: FileName)
    requires !receipt.HandoffFile?
    ensures receipt in Handoff.CopyBaselines(files, stage, attempt, baselines) <==> receipt in files
  {
    if baselines != [] {
      CopiesCreateNoReceipt(files, stage, attempt, baselines[..|baselines| - 1], receipt);
    }
  }

  /** Preparation with a pending reset leaves no receipt that the stage, or one behind it, makes. */
  lemma PreparationClearsReceipt(s: AgentState, files: Files, history: Content, receipt: FileName)
    requires s.currentStage.Some? && s.currentStage != Some(Explanation) && receipt in {SolverReceiptFile, CheckReceipt}
    requires receipt in files ==> s.pendingWorkspaceReset
    ensures receipt !in PreparedFiles(s, files, history)
  {
    match LastWithAttempt(s.directives, s.pendingHandoff)
    case None =>
    case Some(i) =>
      var stage := StageOfLabel(s.directives[i].responsibility);
      CopiesCreateNoReceipt(Handoff.Retire(files, stage, s.pendingHandoff), stage, s.pendingHandoff,
                            Handoff.HandoffFiles(stage), receipt);
  }

  /** Where a stage result can lead: behind a verdict, a repair or a repeated review has its reset pending. */
  predicate LeadsOn(stage: Stage, s: AgentState) {
    s.currentStage.Some? ==>
      && (stage == Solving ==> s.currentStage.value in {FeasibilityReview, Explanation})
      && (stage in {FeasibilityReview, Explanation} ==>
            s.currentStage == Some(Explanation) || s.pendingWorkspaceReset)
  }

  lemma ReviewLeadsOn(arm: Arm, s: AgentState, review: Review, check: Option<Doc>)
    requires ApplyReview(arm, s, review, check).Ok?
    ensures LeadsOn(FeasibilityReview, ApplyReview(arm, s, review, check).value)
  {
  }

  lemma ResultLeadsOn(arm: Arm, s: AgentState, result: StageResult)
    requires ApplyStageResult(arm, s, result).Ok?
    ensures LeadsOn(ResultStage(result), ApplyStageResult(arm, s, result).value)
  {
    match result
    case Completed(ReviewData(review, check)) => ReviewLeadsOn(arm, s, review, check);
    case _ =>
  }

  lemma TurnLeadsOn(arm: Arm, w: World, step: Step, next: World)
    requires ValidStep(w, step) && step.Turn? && Transition(arm, w, step) == StageFlow.Ok(next)
    ensures LeadsOn(w.state.currentStage.value, next.state)
  {
    match Prepare(w.state, step.baselines)
    case Raises(_) =>
    case Ok(p) =>
      if !MissingPrerequisite(arm, p) {
        var p' := if p.currentStage == Some(Intake) && step.transcript != []
                  then p.(conversation := step.transcript) else p;
        ResultLeadsOn(arm, p', step.result);
      }
  }

  lemma TurnConfinesSolverReceipt(p: Policy, arm: Arm, site: Site, work: Work)
    requires SoundPolicy(p) && Invariant(arm, site.world) && ReceiptsConfined(site)
    requires ValidStep(site.world, work.step) && work.step.Turn?
    requires Transition(arm, site.world, work.step).Ok?
    ensures var next := After(p, arm, site, work);
            SolverReceiptFile in next.files && next.world.state.currentStage.Some? ==>
              next.world.state.currentStage.value in {FeasibilityReview, Explanation}
              || next.world.state.pendingWorkspaceReset
  {
    var s, stage := site.world.state, site.world.state.currentStage.value;
    TurnLeadsOn(arm, site.world, work.step, Transition(arm, site.world, work.step).value);
    if stage !in {Solving, FeasibilityReview, Explanation} {
      PreparationClearsReceipt(s, site.files, work.history, SolverReceiptFile);
      ToolsCreateNoReceipt(p, stage, PreparedFiles(s, site.files, work.history), work.calls, SolverReceiptFile);
    }
  }

  lemma TurnConfinesCheckReceipt(p: Policy, arm: Arm, site: Site, work: Work)
    requires SoundPolicy(p) && Invariant(arm, site.world) && ReceiptsConfined(site)
    requires ValidStep(site.world, work.step) && work.step.Turn?
    requires Transition(arm, site.world, work.step).Ok?
    ensures var next := After(p, arm, site, work);
            CheckReceipt in next.files && next.world.state.currentStage.Some? ==>
              next.world.state.currentStage == Some(Explanation) || next.world.state.pendingWorkspaceReset
  {
    var s, stage := site.world.state, site.world.state.currentStage.value;
    var prepared := PreparedFiles(s, site.files, work.history);
    TurnLeadsOn(arm, site.world, work.step, Transition(arm, site.world, work.step).value);
    if stage !in {FeasibilityReview, Explanation} {
      PreparationClearsReceipt(s, site.files, work.history, CheckReceipt);
      if stage == Solving {
        SessionCreatesNoCheckReceipt(p.solving, FirstSession(prepared), work.solverCalls);
      } else {
        ToolsCreateNoReceipt(p, stage, prepared, work.calls, CheckReceipt);
      }
    }
  }

  lemma AbortStops(arm: Arm, w: World, message: string)
    requires w.state.currentStage.Some?
    ensures Fail(arm, w, w.state, message).Ok? && Fail(arm, w, w.state, message).value.state.currentStage == None
  {
  }

  lemma StepConfines(p: Policy, arm: Arm, site: Site, work: Work)
    requires SoundPolicy(p) && Invariant(arm, site.world) && ReceiptsConfined(site)
    requires ValidStep(site.world, work.step) && Transition(arm, site.world, work.step).Ok?
    ensures ReceiptsConfined(After(p, arm, site, work))
  {
    match work.step
    case Turn(_, _, _) =>
      TurnConfinesSolverReceipt(p, arm, site, work);
      TurnConfinesCheckReceipt(p, arm, site, work);
    case Abort(message) => AbortStops(arm, site.world, message);
    case Answer(_) =>
  }

  lemma {:induction false} RunKeepsInvariant(p: Policy, arm: Arm, course: Course)
    requires IsRun(p, arm, course)
    ensures Invariant(arm, SiteOf(p, arm, course).world)
  {
    match course
    case Begin(problem, _) => StartInvariant(arm, problem);
    case Then(before, work) =>
      RunKeepsInvariant(p, arm, before);
      StageRuns.StepKeeps(arm, SiteOf(p, arm, before).world, work.step);
  }

  lemma {:induction false} RunConfines(p: Policy, arm: Arm, course: Course)
    requires SoundPolicy(p) && IsRun(p, arm, course)
    ensures ReceiptsConfined(SiteOf(p, arm, course))
  {
    match course
    case Begin(_, _) =>
    case Then(before, work) =>
      RunConfines(p, arm, before);
      RunKeepsInvariant(p, arm, before);
      StageRuns.StepKeeps(arm, SiteOf(p, arm, before).world, work.step);
      StepConfines(p, arm, SiteOf(p, arm, before), work);
  }

  /** An answer leaves the files alone, and a turn of a stage begins with its prepared workspace. */
  lemma StepFiles(p: Policy, arm: Arm, site: Site, work: Work)
    requires Invariant(arm, site.world) && ValidStep(site.world, work.step)
    ensures work.step.Answer? ==> After(p, arm, site, work).files == site.files
    ensures work.step.Turn? ==>
              var stage := site.world.state.currentStage.value;
              var entered := PreparedFiles(site.world.state, site.files, work.history);
              After(p, arm, site, work).files
              == if stage == Solving
                 then Receipts.RunCalls(p.solving, Receipts.Session(entered, None, None, false), work.solverCalls).files
                 else UseTools(p, stage, entered, work.calls)
  {
    StageRuns.StepKeeps(arm, site.world, work.step);
  }

  /** The workspace a stage of the run starts with. */
  function Entered(site: Site, history: Content): Files
    requires site.world.state.currentStage.Some?
  {
    PreparedFiles(site.world.state, site.files, history)
  }

  /** Runs do get there: after a confirmed definition an arm without earlier stages is about to solve. */
  lemma SolvingIsReached(p: Policy, arm: Arm) returns (course: Course)
    requires arm == Arm(true, false, false, false)
    ensures IsRun(p, arm, course) && SiteOf(p, arm, course).world.state.currentStage == Some(Solving)
  {
    var definition: Doc := map["goal" := "plan"];
    assert "goal" in definition;
    var intake := Turn([], [], Completed(IntakeData(true, "", Some(definition), [])));
    var start := Begin("", map[]);
    course := Then(start, Work(intake, Text("[]"), [], [], map[]));
    assert SiteOf(p, arm, start).world == Start("") && IsRun(p, arm, start);
    StartInvariant(arm, "");
    StageRuns.StepKeeps(arm, Start(""), intake);
  }

  /** In every run, each time the agent is about to solve, the prepared workspace holds no solver receipt. */
  lemma SolvingStartsFresh(p: Policy, arm: Arm, course: Course, history: Content)
    requires SoundPolicy(p) && IsRun(p, arm, course)
    requires SiteOf(p, arm, course).world.state.currentStage == Some(Solving)
    ensures Receipts.Fresh(FirstSession(Entered(SiteOf(p, arm, course), history)))
  {
    var site := SiteOf(p, arm, course);
    RunConfines(p, arm, course);
    PreparationClearsReceipt(site.world.state, site.files, history, SolverReceiptFile);
  }

  /**
   In every run: a candidate accepted in any Solving session is byte for byte what the most
   recent solver run of that session left.
  */
  lemma AcceptedInRun(p: Policy, arm: Arm, course: Course, history: Content, calls: seq<Receipts.Call>)
    requires SoundPolicy(p) && IsRun(p, arm, course)
    requires SiteOf(p, arm, course).world.state.currentStage == Some(Solving)
    requires var s := Receipts.RunCalls(p.solving, FirstSession(Entered(SiteOf(p, arm, course), history)), calls);
             !s.ended && Receipts.Accepts(p.solving, s.files, true)
    ensures var s := Receipts.RunCalls(p.solving, FirstSession(Entered(SiteOf(p, arm, course), history)), calls);
            && s.lastSolution.Some? && s.boundInputs.Some?
            && s.lastSolution.value == Some(s.files[Solution])
            && s.boundInputs.value == Receipts.Inputs(s.files[SolverCode], s.files[SolverInput])
  {
    SolvingStartsFresh(p, arm, course, history);
    Receipts.AcceptedCandidateIsTheLastRuns(p.solving, FirstSession(Entered(SiteOf(p, arm, course), history)), calls);
  }

  /**
   In every run: a checker receipt present in any review, after any tool calls of that review,
   describes the four current files, three of them as they were before the check.
  */
  lemma CheckedInRun(p: Policy, arm: Arm, course: Course, history: Content, calls: seq<Checking.Call>)
    requires SoundPolicy(p) && IsRun(p, arm, course)
    requires SiteOf(p, arm, course).world.state.currentStage == Some(FeasibilityReview)
    ensures Checking.ReceiptCurrent(
              Checking.RunCalls(p.reviewing, Checking.Session(Entered(SiteOf(p, arm, course), history), None), calls))
  {
    var site := SiteOf(p, arm, course);
    RunConfines(p, arm, course);
    PreparationClearsReceipt(site.world.state, site.files, history, CheckReceipt);
    Checking.ReceiptAlwaysCurrent(p.reviewing, Checking.Session(Entered(site, history), None), calls);
  }
}
