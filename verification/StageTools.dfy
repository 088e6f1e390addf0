/** The tool handlers of Solving and of Feasibility Review, as methods on a workspace. */
module SolvingTools {
  import opened Wrappers
  import opened AgentModels
  import opened AccessPolicy
  import opened Workspace
  import opened SolvingReceipts

  class SolvingToolset {
    const checks: Checks
    const workspace: WorkspaceFiles
    var ended: bool   // a solver timeout forced the stage to completion
    ghost var session: Session

    ghost predicate Valid()
      reads this, workspace
    {
      && workspace.rules == checks.rules && workspace.Valid()
      && session.files == workspace.files && session.ended == ended
    }

    constructor (checks: Checks, workspace: WorkspaceFiles)
      requires workspace.Valid() && workspace.rules == checks.rules
      ensures Valid() && this.checks == checks && this.workspace == workspace
      ensures session == Session(workspace.files, None, None, false)
    {
      this.checks, this.workspace := checks, workspace;
      ended, session := false, Session(workspace.files, None, None, false);
    }

    method WriteFile(path: FileName, content: Content)
      requires Valid() && !ended
      modifies this`session, workspace
      ensures Valid() && session == Step(checks, old(session), Call.WriteFile(path, content))
    {
      if MayWrite(checks.rules, Solving, path) {
        workspace.files := workspace.files[path := content];
      }
      session := session.(files := workspace.files);
    }

    /** Replacing text, if it matches exactly once, also restores protected files, whatever the path resolved to. */
    method ReplaceInFile(path: FileName, edit: Edit) returns (replaced: bool)
      requires Valid() && !ended
      modifies this`session, workspace
      ensures Valid() && session == Step(checks, old(session), Call.ReplaceInFile(path, edit))
      ensures replaced <==> path in old(workspace.files) && MayWrite(checks.rules, Solving, path)
                            && edit(old(workspace.files)[path]).Some?
    {
      replaced := false;
      if path in workspace.files && MayWrite(checks.rules, Solving, path) {
        var content := edit(workspace.files[path]);
        if content.Some? {
          var changed := workspace.WriteGuarded(Solving, path, content.value);
          replaced := true;
        }
      }
      session := session.(files := workspace.files);
    }

    method DeleteFile(path: FileName)
      requires Valid() && !ended
      modifies this`session, workspace
      ensures Valid() && session == Step(checks, old(session), Call.DeleteFile(path))
    {
      if path in workspace.files && MayWrite(checks.rules, Solving, path) {
        workspace.files := workspace.files - {path};
      }
      session := session.(files := workspace.files);
    }

    method Shell(command: Command, solverTimedOut: bool) returns (violations: seq<FileName>)
      requires Valid() && !ended
      modifies this, workspace
      ensures Valid() && session == Step(checks, old(session), RunShell(command, solverTimedOut))
      ensures forall p :: p in violations <==>
                ViolatesAt(checks.rules, Solving, {}, old(workspace.files), command, p)
    {
      violations := workspace.RunGuarded(Solving, {}, command);
      session := AfterShell(checks, session, command, solverTimedOut);
      NoViolations(checks.rules, Solving, {}, old(workspace.files), command, violations);
      if violations == [] && solverTimedOut {
        workspace.files := PublishTimeout(PublishReceipt(checks, workspace.files, true));
        ended := true;
      }
    }

    /** Clear the stale candidate and receipt, run the solver, and bind what it produced. */
    method RunSolver(launch: Launch)
      requires Valid() && !ended
      modifies this, workspace
      ensures Valid() && session == Step(checks, old(session), Call.RunSolver(launch))
    {
      session := AfterSolver(checks, session, launch);
      if !CanRunSolver(checks, workspace.files) {
        return;
      }
      workspace.files := workspace.files - {Solution, SolverReceiptFile};
      ghost var cleared := workspace.files;
      match launch {
        case CannotStart =>
        case Launched(command, timedOut) =>
          var violations := workspace.RunGuarded(Solving, {Solution}, command);
          NoViolations(checks.rules, Solving, {Solution}, cleared, command, violations);
          if violations == [] {
            workspace.files := PublishReceipt(checks, workspace.files, timedOut);
            if timedOut {
              workspace.files := PublishTimeout(workspace.files);
              ended := true;
            }
          }
      }
    }

    /** `validResult` says that message and result meet their contracts. */
    method SubmitSolvingOutcome(validResult: bool, declaresSolution: bool) returns (accepted: bool)
      requires Valid() && !ended
      modifies this`session, workspace
      ensures Valid() && session == Step(checks, old(session), Submit(validResult, declaresSolution))
      ensures accepted <==> validResult && Accepts(checks, old(workspace.files), declaresSolution)
    {
      accepted := validResult && Accepts(checks, workspace.files, declaresSolution);
      if accepted {
        workspace.files := AfterSubmit(workspace.files);
      }
      session := session.(files := workspace.files);
    }
  }

  lemma NoViolations(rules: seq<Rule>, stage: Stage, exempt: set<FileName>, files: Files, command: Command,
                     violations: seq<FileName>)
    requires forall p :: p in violations <==> ViolatesAt(rules, stage, exempt, files, command, p)
    ensures violations == [] <==> !Violates(rules, stage, exempt, files, command)
  {
    if violations != [] {
      assert violations[0] in violations;
    }
  }
}

module ReviewTools {
  import opened Wrappers
  import opened AgentModels
  import opened AccessPolicy
  import opened Workspace
  import opened CheckerReceipts
  import SolvingTools

  class ReviewToolset {
    const checks: Checks
    const workspace: WorkspaceFiles
    ghost var session: Session

    ghost predicate Valid()
      reads this, workspace
    {
      workspace.rules == checks.rules && workspace.Valid() && session.files == workspace.files
    }

    constructor (checks: Checks, workspace: WorkspaceFiles)
      requires workspace.Valid() && workspace.rules == checks.rules
      ensures Valid() && this.checks == checks && this.workspace == workspace
      ensures session == Session(workspace.files, None)
    {
      this.checks, this.workspace, session := checks, workspace, Session(workspace.files, None);
    }

    method Shell(command: Command) returns (violations: seq<FileName>)
      requires Valid()
      modifies this, workspace
      ensures Valid() && session == Step(checks, old(session), RunShell(command))
    {
      violations := workspace.RunGuarded(FeasibilityReview, {}, command);
      session := session.(files := workspace.files);
    }

    method WriteVerdict(content: Content)
      requires Valid()
      modifies this, workspace
      ensures Valid() && session == Step(checks, old(session), Call.WriteVerdict(content))
    {
      workspace.files := workspace.files[StageOutput(FeasibilityReview) := content];
      session := session.(files := workspace.files);
    }

    /** Drop earlier evidence, run the audited checker, and bind its result. */
    method RunFeasibilityChecker(launch: Launch)
      requires Valid()
      modifies this, workspace
      ensures Valid() && session == Step(checks, old(session), RunChecker(launch))
    {
      ghost var before := workspace.files;
      if CanRunChecker(checks, workspace.files) {
        workspace.files := workspace.files - {CheckReceipt, CheckResult};
        ghost var cleared := workspace.files;
        match launch {
          case CannotStart =>
          case Launched(command, timedOut) =>
            var violations := workspace.RunGuarded(FeasibilityReview, {CheckResult}, command);
            SolvingTools.NoViolations(checks.rules, FeasibilityReview, {CheckResult}, cleared, command, violations);
            if violations == [] && !timedOut {
              workspace.files := PublishReceipt(checks, workspace.files);
            }
        }
      }
      session := Session(workspace.files, if CanRunChecker(checks, before) then JudgedFiles(before) else session.judged);
    }
  }
}
