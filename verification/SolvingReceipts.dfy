/**
 The Solving tools over whole sessions: what an accepted submission says about where the
 candidate solution came from.
 */
module SolvingReceipts {
  import opened Wrappers
  import opened AgentModels
  import opened AccessPolicy
  import opened Workspace

  /** The access rules in force, and JSON parsing and schema validation kept abstract. */
  datatype Checks = Checks(rules: seq<Rule>, schemaPath: FileName, isObject: Content -> bool,
                           isBlank: Content -> bool, matchesSchema: (Content, Content) -> bool)

  datatype Launch = CannotStart | Launched(command: Command, timedOut: bool)

  /** A textual replacement: the new content, or None when the old text does not match exactly once. */
  type Edit = Content -> Option<Content>

  datatype Call =
    | WriteFile(path: FileName, content: Content)
    | ReplaceInFile(path: FileName, edit: Edit)
    | DeleteFile(path: FileName)
    | RunShell(command: Command, solverTimedOut: bool)
    | RunSolver(launch: Launch)
    | Submit(validResult: bool, declaresSolution: bool)

  datatype Inputs = Inputs(solver: Content, input: Content)

  /**
   The workspace and, as history, the solution left by the latest solver run and the inputs
   that run's receipt was written for. `ended` is a stage forced to completion by a timeout.
   */
  datatype Session = Session(files: Files, lastSolution: Option<Option<Content>>, boundInputs: Option<Inputs>,
                             ended: bool)

  predicate HasObject(c: Checks, files: Files, path: FileName) {
    path in files && c.isObject(files[path])
  }

  predicate SolutionConforms(c: Checks, files: Files) {
    HasObject(c, files, Solution) && HasObject(c, files, c.schemaPath)
    && c.matchesSchema(files[c.schemaPath], files[Solution])
  }

  /** The execution receipt for the current files; a malformed candidate is not bound. */
  function PublishReceipt(c: Checks, files: Files, timedOut: bool): Files {
    if !HasObject(c, files, SolverInput) || SolverCode !in files then files
    else files[SolverReceiptFile :=
                 SolverReceipt(Sha256(files[SolverCode]), Sha256(files[SolverInput]),
                               if SolutionConforms(c, files) then Some(Sha256(files[Solution])) else None, timedOut)]
  }

  /** Runtime's own record of an external timeout, and the stage output pointing to it. */
  function PublishTimeout(files: Files): Files {
    files[RuntimeOutcome := Text("runtime_timeout")][StageOutput(Solving) := Text("solved")]
  }

  predicate CanRunSolver(c: Checks, files: Files) {
    SolverCode in files && !c.isBlank(files[SolverCode]) && HasObject(c, files, SolverInput)
  }

  function BoundInputs(files: Files): Option<Inputs> {
    if SolverReceiptFile in files && SolverCode in files && SolverInput in files
    then Some(Inputs(files[SolverCode], files[SolverInput])) else None
  }

  ghost function AfterSolver(c: Checks, s: Session, launch: Launch): Session {
    if !CanRunSolver(c, s.files) then s
    else
      var cleared := s.files - {Solution, SolverReceiptFile};
      match launch
      case CannotStart => Session(cleared, Some(None), None, false)
      case Launched(command, timedOut) =>
        var left := AfterCommand(c.rules, Solving, {Solution}, cleared, command);
        if Violates(c.rules, Solving, {Solution}, cleared, command)
        then Session(left, Some(Lookup(left, Solution)), None, false)
        else
          var published := PublishReceipt(c, left, timedOut);
          Session(if timedOut then PublishTimeout(published) else published,
                  Some(Lookup(left, Solution)), BoundInputs(published), timedOut)
  }

  /** A solver timed out inside a shell command gets a receipt too, and ends the stage. */
  ghost function AfterShell(c: Checks, s: Session, command: Command, solverTimedOut: bool): Session {
    var left := AfterCommand(c.rules, Solving, {}, s.files, command);
    if solverTimedOut && !Violates(c.rules, Solving, {}, s.files, command)
    then s.(files := PublishTimeout(PublishReceipt(c, left, true)), ended := true)
    else s.(files := left)
  }

  predicate ReceiptMatches(files: Files, declaresSolution: bool) {
    && SolverReceiptFile in files && files[SolverReceiptFile].SolverReceipt?
    && SolverCode in files && files[SolverReceiptFile].solver == Sha256(files[SolverCode])
    && SolverInput in files && files[SolverReceiptFile].input == Sha256(files[SolverInput])
    && if declaresSolution
       then Solution in files && files[SolverReceiptFile].candidate == Some(Sha256(files[Solution]))
       else files[SolverReceiptFile].candidate == None
  }

  /** Every check `submit_solving_outcome` makes on the workspace. */
  predicate Accepts(c: Checks, files: Files, declaresSolution: bool) {
    && CanRunSolver(c, files)
    && (declaresSolution ==> SolutionConforms(c, files))
    && ReceiptMatches(files, declaresSolution)
  }

  function AfterSubmit(files: Files): Files {
    files[SolverResultFile := Text("solver_result")][StageOutput(Solving) := Text("solved")]
  }

  ghost function Step(c: Checks, s: Session, call: Call): Session {
    if s.ended then s
    else
      match call
      case WriteFile(path, content) =>
        if MayWrite(c.rules, Solving, path) then s.(files := s.files[path := content]) else s
      case ReplaceInFile(path, edit) =>
        if path in s.files && MayWrite(c.rules, Solving, path) && edit(s.files[path]).Some?
        then s.(files := Merge(ProtectedPaths(c.rules, Solving), s.files, s.files[path := edit(s.files[path]).value]))
        else s
      case DeleteFile(path) =>
        if path in s.files && MayWrite(c.rules, Solving, path) then s.(files := s.files - {path}) else s
      case RunShell(command, solverTimedOut) => AfterShell(c, s, command, solverTimedOut)
      case RunSolver(launch) => AfterSolver(c, s, launch)
      case Submit(valid, declares) =>
        if valid && Accepts(c, s.files, declares) then s.(files := AfterSubmit(s.files)) else s
  }

  ghost function RunCalls(c: Checks, s: Session, calls: seq<Call>): Session
    decreases |calls|
  {
    if calls == [] then s else RunCalls(c, Step(c, s, calls[0]), calls[1..])
  }

  // ---- The rules in force --------------------------------------------------

  /** Neither the candidate nor its receipt can be written by any tool but the solver run. */
  ghost predicate ProtectsSolution(rules: seq<Rule>) {
    && Solution in ProtectedPaths(rules, Solving) && !MayWrite(rules, Solving, Solution)
    && SolverReceiptFile in ProtectedPaths(rules, Solving) && !MayWrite(rules, Solving, SolverReceiptFile)
  }

  /** The rules Solving runs under do protect them. */
  lemma SolvingRulesProtectSolution()
    ensures ProtectsSolution(WithSolvingOutcomeSubmission(DefaultRules()))
  {
    var rules := WithSolvingOutcomeSubmission(DefaultRules());
    assert rules[14] == DefaultRule(14) == FileRule(Solution, {}, {});
    assert rules[17] == DefaultRule(17) == FileRule(SolverReceiptFile, {}, {AlgorithmDesign});
    OwnRuleDecides(rules, Solving, Solution, 14);
    OwnRuleDecides(rules, Solving, SolverReceiptFile, 17);
  }

  // ---- What every session keeps --------------------------------------------

  /** The candidate is the last run's, and a receipt was written for it and for its inputs. */
  ghost predicate Provenance(s: Session) {
    && (s.lastSolution.Some? ==> Lookup(s.files, Solution) == s.lastSolution.value)
    && (SolverReceiptFile in s.files ==>
          && s.lastSolution.Some? && s.boundInputs.Some?
          && s.files[SolverReceiptFile].SolverReceipt?
          && s.files[SolverReceiptFile].solver == Sha256(s.boundInputs.value.solver)
          && s.files[SolverReceiptFile].input == Sha256(s.boundInputs.value.input)
          && (s.files[SolverReceiptFile].candidate.Some? ==>
                s.lastSolution.value.Some?
                && s.files[SolverReceiptFile].candidate.value == Sha256(s.lastSolution.value.value)))
  }

  /** Leaving candidate and receipt alone keeps their provenance. */
  lemma UntouchedKeeps(s: Session, files: Files)
    requires Provenance(s)
    requires Lookup(files, Solution) == Lookup(s.files, Solution)
    requires Lookup(files, SolverReceiptFile) == Lookup(s.files, SolverReceiptFile)
    ensures Provenance(s.(files := files))
  {
  }

  lemma CommandLeavesProtected(rules: seq<Rule>, stage: Stage, exempt: set<FileName>, files: Files, command: Command,
                               p: FileName)
    requires p in ProtectedPaths(rules, stage) - exempt
    ensures Lookup(AfterCommand(rules, stage, exempt, files, command), p) == Lookup(files, p)
  {
    LookupAfter(rules, stage, exempt, files, command, p);
  }

  lemma PublishedProvenance(c: Checks, left: Files)
    requires SolverReceiptFile !in left
    ensures var published := PublishReceipt(c, left, false);
            Provenance(Session(published, Some(Lookup(left, Solution)), BoundInputs(published), false))
  {
  }

  lemma SolverKeeps(c: Checks, s: Session, launch: Launch)
    requires ProtectsSolution(c.rules) && Provenance(s) && !s.ended
    ensures AfterSolver(c, s, launch).ended || Provenance(AfterSolver(c, s, launch))
  {
    if CanRunSolver(c, s.files) && launch.Launched? && !launch.timedOut {
      var cleared := s.files - {Solution, SolverReceiptFile};
      var left := AfterCommand(c.rules, Solving, {Solution}, cleared, launch.command);
      CommandLeavesProtected(c.rules, Solving, {Solution}, cleared, launch.command, SolverReceiptFile);
      assert SolverReceiptFile !in left by {
        assert Lookup(left, SolverReceiptFile) == None;
      }
      PublishedProvenance(c, left);
    }
  }

  lemma ShellKeeps(c: Checks, s: Session, command: Command, solverTimedOut: bool)
    requires ProtectsSolution(c.rules) && Provenance(s) && !s.ended
    ensures AfterShell(c, s, command, solverTimedOut).ended || Provenance(AfterShell(c, s, command, solverTimedOut))
  {
    CommandLeavesProtected(c.rules, Solving, {}, s.files, command, Solution);
    CommandLeavesProtected(c.rules, Solving, {}, s.files, command, SolverReceiptFile);
    UntouchedKeeps(s, AfterCommand(c.rules, Solving, {}, s.files, command));
  }

  lemma EditKeeps(c: Checks, s: Session, call: Call)
    requires ProtectsSolution(c.rules) && Provenance(s) && !s.ended && !call.RunShell? && !call.RunSolver?
    ensures Provenance(Step(c, s, call))
  {
    var files := Step(c, s, call).files;
    assert Lookup(files, Solution) == Lookup(s.files, Solution);
    assert Lookup(files, SolverReceiptFile) == Lookup(s.files, SolverReceiptFile);
    UntouchedKeeps(s, files);
  }

  lemma StepKeeps(c: Checks, s: Session, call: Call)
    requires ProtectsSolution(c.rules) && (s.ended || Provenance(s))
    ensures Step(c, s, call).ended || Provenance(Step(c, s, call))
  {
    if !s.ended {
      match call
      case RunSolver(launch) => SolverKeeps(c, s, launch);
      case RunShell(command, solverTimedOut) => ShellKeeps(c, s, command, solverTimedOut);
      case _ => EditKeeps(c, s, call);
    }
  }

  /** A stage starts without a receipt and without any history. */
  predicate Fresh(s: Session) {
    SolverReceiptFile !in s.files && s.lastSolution == None && s.boundInputs == None && !s.ended
  }

  lemma {:induction false} SessionKeeps(c: Checks, s: Session, calls: seq<Call>)
    requires ProtectsSolution(c.rules) && (s.ended || Provenance(s))
    ensures RunCalls(c, s, calls).ended || Provenance(RunCalls(c, s, calls))
    decreases |calls|
  {
    if calls != [] {
      StepKeeps(c, s, calls[0]);
      SessionKeeps(c, Step(c, s, calls[0]), calls[1..]);
    }
  }

  /**
   After any sequence of tool calls, a submission that is accepted with a candidate is about
   the solution the most recent solver run left, and about the solver and input its receipt
   was written for.
   */
  lemma AcceptedCandidateIsTheLastRuns(c: Checks, start: Session, calls: seq<Call>)
    requires ProtectsSolution(c.rules) && Fresh(start) && !RunCalls(c, start, calls).ended
    requires Accepts(c, RunCalls(c, start, calls).files, true)
    ensures var s := RunCalls(c, start, calls);
            && s.lastSolution.Some? && s.boundInputs.Some?
            && s.lastSolution.value == Some(s.files[Solution])
            && s.boundInputs.value == Inputs(s.files[SolverCode], s.files[SolverInput])
  {
    SessionKeeps(c, start, calls);
  }

  /** A submission accepted without a candidate follows a run whose receipt bound none. */
  lemma AcceptedWithoutCandidate(c: Checks, start: Session, calls: seq<Call>)
    requires ProtectsSolution(c.rules) && Fresh(start) && !RunCalls(c, start, calls).ended
    requires Accepts(c, RunCalls(c, start, calls).files, false)
    ensures var s := RunCalls(c, start, calls);
            && s.lastSolution.Some?
            && s.files[SolverReceiptFile].candidate == None
            && s.boundInputs == Some(Inputs(s.files[SolverCode], s.files[SolverInput]))
  {
    SessionKeeps(c, start, calls);
  }
}
