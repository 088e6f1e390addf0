/** What a solver run leads to, in terms of the files its command left, and how long that lasts. */
module SolverOutcomes {
  import opened Wrappers
  import opened AgentModels
  import opened AccessPolicy
  import opened AccessTables
  import opened Workspace
  import opened SolvingReceipts

  /** The solver exists with some text, and its input is an object. */
  predicate Runnable(c: Checks, files: Files) {
    && SolverCode in files && !c.isBlank(files[SolverCode])
    && SolverInput in files && c.isObject(files[SolverInput])
  }

  /** There is a candidate, it is an object, and it matches the schema in force. */
  predicate HoldsCandidate(c: Checks, files: Files) {
    && Solution in files && c.isObject(files[Solution])
    && c.schemaPath in files && c.isObject(files[c.schemaPath])
    && c.matchesSchema(files[c.schemaPath], files[Solution])
  }

  /** What a guarded solver command leaves when the stale candidate and receipt were removed before. */
  ghost function Left(c: Checks, s: Session, command: Command): Files {
    AfterCommand(c.rules, Solving, {Solution}, s.files - {Solution, SolverReceiptFile}, command)
  }

  ghost predicate Clean(c: Checks, s: Session, command: Command) {
    !Violates(c.rules, Solving, {Solution}, s.files - {Solution, SolverReceiptFile}, command)
  }

  /** The receipt for some files, and nothing else, is what publishing adds to them. */
  lemma PublishedReceipt(c: Checks, left: Files, timedOut: bool)
    ensures var files := PublishReceipt(c, left, timedOut);
            && files - {SolverReceiptFile} == left - {SolverReceiptFile}
            && (SolverCode in left && SolverInput in left && c.isObject(left[SolverInput]) ==>
                  Lookup(files, SolverReceiptFile)
                  == Some(SolverReceipt(Sha256(left[SolverCode]), Sha256(left[SolverInput]),
                                        if HoldsCandidate(c, left) then Some(Sha256(left[Solution])) else None,
                                        timedOut)))
  {
  }

  lemma RunPublishes(c: Checks, s: Session, command: Command)
    requires !s.ended && Runnable(c, s.files) && Clean(c, s, command)
    ensures var s' := Step(c, s, Call.RunSolver(Launched(command, false)));
            !s'.ended && s'.files == PublishReceipt(c, Left(c, s, command), false)
  {
  }

  /** A run that ends in time writes the receipt for the solver, input and candidate it left, and nothing else. */
  lemma RunWritesReceipt(c: Checks, s: Session, command: Command)
    requires !s.ended && Runnable(c, s.files) && Clean(c, s, command)
    ensures var left := Left(c, s, command);
            var s' := Step(c, s, Call.RunSolver(Launched(command, false)));
            && !s'.ended && s'.files - {SolverReceiptFile} == left - {SolverReceiptFile}
            && (SolverCode in left && SolverInput in left && c.isObject(left[SolverInput]) ==>
                  Lookup(s'.files, SolverReceiptFile)
                  == Some(SolverReceipt(Sha256(left[SolverCode]), Sha256(left[SolverInput]),
                                        if HoldsCandidate(c, left) then Some(Sha256(left[Solution])) else None, false)))
  {
    RunPublishes(c, s, command);
    PublishedReceipt(c, Left(c, s, command), false);
  }

  /**
   Right after a solver run that ends in time, submitting is accepted exactly when the files the
   run left are runnable and the submission declares a candidate just when they hold one.
  */
  lemma HonestRunIsAccepted(c: Checks, s: Session, command: Command, declares: bool)
    requires !s.ended && Runnable(c, s.files) && Clean(c, s, command)
    requires c.schemaPath in {SolutionSchema, FixedSolutionContract}
    ensures var left, s' := Left(c, s, command), Step(c, s, Call.RunSolver(Launched(command, false)));
            Accepts(c, s'.files, declares) <==> Runnable(c, left) && (declares <==> HoldsCandidate(c, left))
  {
    var left, s' := Left(c, s, command), Step(c, s, Call.RunSolver(Launched(command, false)));
    RunWritesReceipt(c, s, command);
    SameButReceipt(left, s'.files, SolverCode);
    SameButReceipt(left, s'.files, SolverInput);
    SameButReceipt(left, s'.files, Solution);
    SameButReceipt(left, s'.files, c.schemaPath);
    BoundIsAccepted(c, left, s'.files, declares);
  }

  lemma BoundIsAccepted(c: Checks, left: Files, files: Files, declares: bool)
    requires Lookup(files, SolverCode) == Lookup(left, SolverCode) && Lookup(files, SolverInput) == Lookup(left, SolverInput)
    requires Lookup(files, Solution) == Lookup(left, Solution) && Lookup(files, c.schemaPath) == Lookup(left, c.schemaPath)
    requires SolverCode in left && SolverInput in left && c.isObject(left[SolverInput]) ==>
               Lookup(files, SolverReceiptFile)
               == Some(SolverReceipt(Sha256(left[SolverCode]), Sha256(left[SolverInput]),
                                     if HoldsCandidate(c, left) then Some(Sha256(left[Solution])) else None, false))
    ensures Accepts(c, files, declares) <==> Runnable(c, left) && (declares <==> HoldsCandidate(c, left))
  {
  }

  lemma SameButReceipt(left: Files, files: Files, f: FileName)
    requires files - {SolverReceiptFile} == left - {SolverReceiptFile} && f != SolverReceiptFile
    ensures Lookup(files, f) == Lookup(left, f)
  {
    assert f in left - {SolverReceiptFile} <==> f in left;
    assert f in files - {SolverReceiptFile} <==> f in files;
    if f in left {
      assert (left - {SolverReceiptFile})[f] == left[f] && (files - {SolverReceiptFile})[f] == files[f];
    }
  }

  /** A run that does not start, or that touches what it must not, leaves nothing to submit. */
  lemma FailedRunIsRefused(c: Checks, s: Session, launch: Launch, declares: bool)
    requires ProtectsSolution(c.rules) && !s.ended && Runnable(c, s.files)
    requires launch == CannotStart || (launch.Launched? && !Clean(c, s, launch.command))
    ensures var s' := Step(c, s, Call.RunSolver(launch));
            && !s'.ended && SolverReceiptFile !in s'.files && !Accepts(c, s'.files, declares)
            && (launch == CannotStart ==> s'.files == s.files - {Solution, SolverReceiptFile})
  {
    if launch.Launched? {
      var cleared := s.files - {Solution, SolverReceiptFile};
      CommandLeavesProtected(c.rules, Solving, {Solution}, cleared, launch.command, SolverReceiptFile);
      assert Lookup(cleared, SolverReceiptFile) == None;
    }
  }

  /** Without a solver or an input object nothing runs and nothing changes. */
  lemma NothingToRun(c: Checks, s: Session, launch: Launch)
    requires !Runnable(c, s.files)
    ensures Step(c, s, Call.RunSolver(launch)) == s
    ensures !Accepts(c, s.files, true) && !Accepts(c, s.files, false)
  {
  }

  /** A run that is terminated ends the stage, which then holds its timeout outcome and, if it can, its receipt. */
  lemma TimedOutRunEnds(c: Checks, s: Session, command: Command)
    requires !s.ended && Runnable(c, s.files) && Clean(c, s, command)
    requires c.schemaPath in {SolutionSchema, FixedSolutionContract}
    ensures EndedByTimeout(c, Left(c, s, command), Step(c, s, Call.RunSolver(Launched(command, true))))
  {
  }

  /** The same goes for a solver that is terminated in a shell command. */
  lemma TimedOutShellEnds(c: Checks, s: Session, command: Command)
    requires !s.ended && !Violates(c.rules, Solving, {}, s.files, command)
    requires c.schemaPath in {SolutionSchema, FixedSolutionContract}
    ensures EndedByTimeout(c, AfterCommand(c.rules, Solving, {}, s.files, command),
                           Step(c, s, RunShell(command, true)))
  {
  }

  ghost predicate EndedByTimeout(c: Checks, left: Files, s: Session) {
    && s.ended
    && Lookup(s.files, RuntimeOutcome) == Some(Text("runtime_timeout"))
    && Lookup(s.files, StageOutput(Solving)) == Some(Text("solved"))
    && Lookup(s.files, SolverReceiptFile)
       == (if SolverCode in left && SolverInput in left && c.isObject(left[SolverInput])
           then Some(SolverReceipt(Sha256(left[SolverCode]), Sha256(left[SolverInput]),
                                   if HoldsCandidate(c, left) then Some(Sha256(left[Solution])) else None, true))
           else Lookup(left, SolverReceiptFile))
    && forall f :: f !in {RuntimeOutcome, StageOutput(Solving), SolverReceiptFile} ==> Lookup(s.files, f) == Lookup(left, f)
  }

  /** A shell command that does not end the stage leaves exactly what the guarded command left. */
  lemma OtherShellsGoOn(c: Checks, s: Session, command: Command, timedOut: bool)
    requires !s.ended && (!timedOut || Violates(c.rules, Solving, {}, s.files, command))
    ensures Step(c, s, RunShell(command, timedOut))
         == s.(files := AfterCommand(c.rules, Solving, {}, s.files, command))
  {
  }

  /** An accepted submission publishes the result and the stage output; a refused one changes nothing. */
  lemma SubmissionPublishes(c: Checks, s: Session, valid: bool, declares: bool, f: FileName)
    requires !s.ended
    ensures var s', accepted := Step(c, s, Submit(valid, declares)), valid && Accepts(c, s.files, declares);
            if accepted && f == SolverResultFile then Lookup(s'.files, f) == Some(Text("solver_result"))
            else if accepted && f == StageOutput(Solving) then Lookup(s'.files, f) == Some(Text("solved"))
            else Lookup(s'.files, f) == Lookup(s.files, f)
  {
  }

  // ---- How long a run stays submittable ------------------------------------

  /** Under the same receipt and schema, acceptance lasts as long as solver, input and declared candidate do. */
  lemma AcceptedWhileUnchanged(c: Checks, files: Files, files': Files, declares: bool)
    requires Accepts(c, files, declares)
    requires Lookup(files', SolverReceiptFile) == Lookup(files, SolverReceiptFile)
    requires Lookup(files', c.schemaPath) == Lookup(files, c.schemaPath)
    ensures Accepts(c, files', declares)
       <==> && Lookup(files', SolverCode) == Lookup(files, SolverCode)
            && Lookup(files', SolverInput) == Lookup(files, SolverInput)
            && (declares ==> Lookup(files', Solution) == Lookup(files, Solution))
  {
  }

  /** No tool of Solving but the solver run changes the file. */
  ghost predicate OutOfReach(rules: seq<Rule>, f: FileName) {
    && f in ProtectedPaths(rules, Solving) && !MayWrite(rules, Solving, f)
    && f !in {SolverResultFile, StageOutput(Solving)}
  }

  lemma StepLeaves(c: Checks, s: Session, call: Call, f: FileName)
    requires OutOfReach(c.rules, f) && !call.RunSolver? && !Step(c, s, call).ended
    ensures !s.ended && Lookup(Step(c, s, call).files, f) == Lookup(s.files, f)
  {
    match call
    case RunShell(command, _) => CommandLeavesProtected(c.rules, Solving, {}, s.files, command, f);
    case _ =>
  }

  lemma {:induction false} EndedStays(c: Checks, s: Session, calls: seq<Call>)
    requires s.ended
    ensures RunCalls(c, s, calls) == s
    decreases |calls|
  {
    if calls != [] {
      EndedStays(c, s, calls[1..]);
    }
  }

  lemma {:induction false} CallsLeave(c: Checks, s: Session, calls: seq<Call>, f: FileName)
    requires OutOfReach(c.rules, f) && !RunCalls(c, s, calls).ended
    requires forall k :: 0 <= k < |calls| ==> !calls[k].RunSolver?
    ensures Lookup(RunCalls(c, s, calls).files, f) == Lookup(s.files, f)
    decreases |calls|
  {
    if calls != [] {
      var next := Step(c, s, calls[0]);
      if next.ended {
        EndedStays(c, next, calls[1..]);
      }
      StepLeaves(c, s, calls[0], f);
      CallsLeave(c, next, calls[1..], f);
    }
  }

  /**
   After any tool calls other than a solver run that do not end the stage, what was accepted
   is still accepted exactly when solver and input are the same.
  */
  lemma AcceptedUntilEdited(c: Checks, s: Session, calls: seq<Call>, declares: bool)
    requires OutOfReach(c.rules, Solution) && OutOfReach(c.rules, SolverReceiptFile) && OutOfReach(c.rules, c.schemaPath)
    requires Accepts(c, s.files, declares) && !RunCalls(c, s, calls).ended
    requires forall k :: 0 <= k < |calls| ==> !calls[k].RunSolver?
    ensures Accepts(c, RunCalls(c, s, calls).files, declares)
       <==> && Lookup(RunCalls(c, s, calls).files, SolverCode) == Lookup(s.files, SolverCode)
            && Lookup(RunCalls(c, s, calls).files, SolverInput) == Lookup(s.files, SolverInput)
  {
    CallsLeave(c, s, calls, Solution);
    CallsLeave(c, s, calls, SolverReceiptFile);
    CallsLeave(c, s, calls, c.schemaPath);
    AcceptedWhileUnchanged(c, s.files, RunCalls(c, s, calls).files, declares);
  }

  lemma ForbiddenIsOutOfReach(rules: seq<Rule>, f: FileName)
    requires rules == WithSolvingOutcomeSubmission(DefaultRules())
    requires Fixed(f) && Writers(f).Some? && Solving !in Writers(f).value
    requires f !in {SolverResultFile, StageOutput(Solving)}
    ensures OutOfReach(rules, f)
  {
    SubmittingProtects(Solving, f);
    SubmittingMayWrite(Solving, f);
  }

  /** The rules Solving runs under keep candidate, receipt and both schemas out of reach. */
  lemma RulesKeepCandidate(rules: seq<Rule>)
    requires rules == WithSolvingOutcomeSubmission(DefaultRules())
    ensures OutOfReach(rules, Solution)
  {
    ForbiddenIsOutOfReach(rules, Solution);
  }

  lemma RulesKeepReceipt(rules: seq<Rule>)
    requires rules == WithSolvingOutcomeSubmission(DefaultRules())
    ensures OutOfReach(rules, SolverReceiptFile)
  {
    ForbiddenIsOutOfReach(rules, SolverReceiptFile);
  }

  lemma RulesKeepSchema(rules: seq<Rule>, schema: FileName)
    requires rules == WithSolvingOutcomeSubmission(DefaultRules())
    requires schema == SolutionSchema || schema == FixedSolutionContract
    ensures OutOfReach(rules, schema)
  {
    ForbiddenIsOutOfReach(rules, schema);
  }
}
