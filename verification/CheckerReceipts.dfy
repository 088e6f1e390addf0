/**
 A review stage's tools over whole sessions: a checker receipt always describes the files on
 disk, and the files it judged are the ones that were there before the checker ran.
 */
module CheckerReceipts {
  import opened Wrappers
  import opened AgentModels
  import opened AccessPolicy
  import opened Workspace

  datatype Checks = Checks(rules: seq<Rule>, isBlank: Content -> bool, isResult: Content -> bool)

  datatype Launch = CannotStart | Launched(command: Command, timedOut: bool)

  /** Everything a reviewer can do to files: shell, the checker, and writing its verdict. */
  datatype Call =
    | RunShell(command: Command)
    | RunChecker(launch: Launch)
    | WriteVerdict(content: Content)

  datatype Judged = Judged(checker: Content, input: Content, solution: Content)

  /** The workspace and, as history, the three files as they were before the latest checker run. */
  datatype Session = Session(files: Files, judged: Option<Judged>)

  function JudgedFiles(files: Files): Option<Judged> {
    if Checker in files && SolverInput in files && Solution in files
    then Some(Judged(files[Checker], files[SolverInput], files[Solution])) else None
  }

  /** The receipt for one completed check, or nothing when its result cannot be relied on. */
  function PublishReceipt(c: Checks, files: Files): Files {
    if CheckResult in files && c.isResult(files[CheckResult])
       && Checker in files && SolverInput in files && Solution in files
    then files[CheckReceipt := CheckerReceipt(Sha256(files[Checker]), Sha256(files[SolverInput]),
                                              Sha256(files[Solution]), Sha256(files[CheckResult]))]
    else files
  }

  predicate CanRunChecker(c: Checks, files: Files) {
    Checker in files && !c.isBlank(files[Checker])
  }

  ghost function AfterChecker(c: Checks, files: Files, launch: Launch): Files {
    if !CanRunChecker(c, files) then files
    else
      var cleared := files - {CheckReceipt, CheckResult};
      match launch
      case CannotStart => cleared
      case Launched(command, timedOut) =>
        var left := AfterCommand(c.rules, FeasibilityReview, {CheckResult}, cleared, command);
        if Violates(c.rules, FeasibilityReview, {CheckResult}, cleared, command) || timedOut then left
        else PublishReceipt(c, left)
  }

  ghost function Step(c: Checks, s: Session, call: Call): Session {
    match call
    case RunShell(command) => s.(files := AfterCommand(c.rules, FeasibilityReview, {}, s.files, command))
    case RunChecker(launch) =>
      Session(AfterChecker(c, s.files, launch),
              if CanRunChecker(c, s.files) then JudgedFiles(s.files) else s.judged)
    case WriteVerdict(content) => s.(files := s.files[StageOutput(FeasibilityReview) := content])
  }

  ghost function RunCalls(c: Checks, s: Session, calls: seq<Call>): Session
    decreases |calls|
  {
    if calls == [] then s else RunCalls(c, Step(c, s, calls[0]), calls[1..])
  }

  const EVIDENCE := {Checker, SolverInput, Solution, CheckResult, CheckReceipt}

  ghost predicate ProtectsEvidence(rules: seq<Rule>) {
    EVIDENCE <= ProtectedPaths(rules, FeasibilityReview)
  }

  lemma ReviewRulesProtectEvidence()
    ensures ProtectsEvidence(DefaultRules())
  {
    var rules := DefaultRules();
    assert rules[10] == DefaultRule(10) == FileRule(Checker, {ProblemContract}, {AlgorithmDesign, Solving});
    assert rules[11] == DefaultRule(11) == FileRule(SolverInput, {Solving}, {});
    assert rules[14] == DefaultRule(14) == FileRule(Solution, {}, {});
    assert rules[18] == DefaultRule(18) == FileRule(CheckResult, {}, {AlgorithmDesign, Solving});
    assert rules[19] == DefaultRule(19) == FileRule(CheckReceipt, {}, {AlgorithmDesign, Solving});
    OwnRuleDecides(rules, FeasibilityReview, Checker, 10);
    OwnRuleDecides(rules, FeasibilityReview, SolverInput, 11);
    OwnRuleDecides(rules, FeasibilityReview, Solution, 14);
    OwnRuleDecides(rules, FeasibilityReview, CheckResult, 18);
    OwnRuleDecides(rules, FeasibilityReview, CheckReceipt, 19);
  }

  /** The receipt names the current four files, three of them unchanged since before the check. */
  ghost predicate ReceiptCurrent(s: Session) {
    CheckReceipt in s.files ==>
      && s.judged.Some? && JudgedFiles(s.files) == s.judged && CheckResult in s.files
      && s.files[CheckReceipt] == CheckerReceipt(Sha256(s.judged.value.checker), Sha256(s.judged.value.input),
                                                 Sha256(s.judged.value.solution), Sha256(s.files[CheckResult]))
  }

  lemma EvidenceUntouched(c: Checks, exempt: set<FileName>, files: Files, command: Command)
    requires ProtectsEvidence(c.rules)
    ensures forall f :: f in EVIDENCE - exempt ==>
      Lookup(AfterCommand(c.rules, FeasibilityReview, exempt, files, command), f) == Lookup(files, f)
  {
    forall f | f in EVIDENCE - exempt
      ensures Lookup(AfterCommand(c.rules, FeasibilityReview, exempt, files, command), f) == Lookup(files, f)
    {
      LookupAfter(c.rules, FeasibilityReview, exempt, files, command, f);
    }
  }

  lemma SameEvidence(s: Session, files: Files)
    requires ReceiptCurrent(s) && forall f :: f in EVIDENCE ==> Lookup(files, f) == Lookup(s.files, f)
    ensures ReceiptCurrent(s.(files := files))
  {
    assert Lookup(files, CheckReceipt) == Lookup(s.files, CheckReceipt);
    assert Lookup(files, CheckResult) == Lookup(s.files, CheckResult);
    assert Lookup(files, Checker) == Lookup(s.files, Checker);
    assert Lookup(files, SolverInput) == Lookup(s.files, SolverInput);
    assert Lookup(files, Solution) == Lookup(s.files, Solution);
  }

  /** A receipt just published is current. */
  lemma PublishedIsCurrent(c: Checks, files: Files)
    requires CheckReceipt !in files
    ensures ReceiptCurrent(Session(PublishReceipt(c, files), JudgedFiles(files)))
    ensures ReceiptCurrent(Session(files, JudgedFiles(files)))
  {
  }

  lemma JudgedUntouched(a: Files, b: Files)
    requires forall f :: f in {Checker, SolverInput, Solution} ==> Lookup(a, f) == Lookup(b, f)
    ensures JudgedFiles(a) == JudgedFiles(b)
  {
    assert Lookup(a, Checker) == Lookup(b, Checker);
    assert Lookup(a, SolverInput) == Lookup(b, SolverInput);
    assert Lookup(a, Solution) == Lookup(b, Solution);
  }

  lemma CheckerKeeps(c: Checks, s: Session, launch: Launch)
    requires ProtectsEvidence(c.rules) && ReceiptCurrent(s)
    ensures ReceiptCurrent(Step(c, s, RunChecker(launch)))
  {
    if CanRunChecker(c, s.files) && launch.Launched? {
      var cleared := s.files - {CheckReceipt, CheckResult};
      var left := AfterCommand(c.rules, FeasibilityReview, {CheckResult}, cleared, launch.command);
      EvidenceUntouched(c, {CheckResult}, cleared, launch.command);
      assert Lookup(left, CheckReceipt) == Lookup(cleared, CheckReceipt) == None;
      JudgedUntouched(left, cleared);
      JudgedUntouched(cleared, s.files);
      PublishedIsCurrent(c, left);
    }
  }

  lemma StepKeeps(c: Checks, s: Session, call: Call)
    requires ProtectsEvidence(c.rules) && ReceiptCurrent(s)
    ensures ReceiptCurrent(Step(c, s, call))
  {
    match call
    case RunChecker(launch) => CheckerKeeps(c, s, launch);
    case RunShell(command) =>
      EvidenceUntouched(c, {}, s.files, command);
      SameEvidence(s, Step(c, s, call).files);
    case WriteVerdict(_) =>
      SameEvidence(s, Step(c, s, call).files);
  }

  /** What a guarded checker command leaves when the earlier evidence was removed before. */
  ghost function Left(c: Checks, s: Session, command: Command): Files {
    AfterCommand(c.rules, FeasibilityReview, {CheckResult}, s.files - {CheckReceipt, CheckResult}, command)
  }

  ghost predicate Clean(c: Checks, s: Session, command: Command) {
    !Violates(c.rules, FeasibilityReview, {CheckResult}, s.files - {CheckReceipt, CheckResult}, command)
  }

  lemma LeftEvidence(c: Checks, s: Session, command: Command)
    requires ProtectsEvidence(c.rules)
    ensures var left := Left(c, s, command);
            && CheckReceipt !in left
            && Lookup(left, Checker) == Lookup(s.files, Checker)
            && Lookup(left, SolverInput) == Lookup(s.files, SolverInput)
            && Lookup(left, Solution) == Lookup(s.files, Solution)
  {
    var cleared := s.files - {CheckReceipt, CheckResult};
    EvidenceUntouched(c, {CheckResult}, cleared, command);
    assert Lookup(Left(c, s, command), CheckReceipt) == Lookup(cleared, CheckReceipt) == None;
    assert Lookup(Left(c, s, command), Checker) == Lookup(cleared, Checker) == Lookup(s.files, Checker);
    assert Lookup(Left(c, s, command), SolverInput) == Lookup(cleared, SolverInput) == Lookup(s.files, SolverInput);
    assert Lookup(Left(c, s, command), Solution) == Lookup(cleared, Solution) == Lookup(s.files, Solution);
  }

  /**
   A check that ends in time and touches nothing it must not gets a receipt exactly when it left
   a valid result and there was an input and a candidate to judge; all other files are as it left them.
  */
  lemma HonestCheckIsBound(c: Checks, s: Session, command: Command)
    requires ProtectsEvidence(c.rules) && Checker in s.files && !c.isBlank(s.files[Checker]) && Clean(c, s, command)
    ensures var left, s' := Left(c, s, command), Step(c, s, RunChecker(Launched(command, false)));
            var bound := CheckResult in left && c.isResult(left[CheckResult])
                         && SolverInput in s.files && Solution in s.files;
            && Lookup(s'.files, CheckReceipt)
               == (if bound then Some(CheckerReceipt(Sha256(s.files[Checker]), Sha256(s.files[SolverInput]),
                                                     Sha256(s.files[Solution]), Sha256(left[CheckResult])))
                   else None)
            && forall f :: f != CheckReceipt ==> Lookup(s'.files, f) == Lookup(left, f)
  {
    var left := Left(c, s, command);
    LeftEvidence(c, s, command);
    assert left == AfterCommand(c.rules, FeasibilityReview, {CheckResult}, s.files - {CheckReceipt, CheckResult}, command);
    assert Lookup(left, Checker) == Some(s.files[Checker]);
  }

  /** Any other check leaves no receipt, and one without a checker changes nothing. */
  lemma FailedCheckIsNotBound(c: Checks, s: Session, launch: Launch)
    requires ProtectsEvidence(c.rules)
    ensures var s' := Step(c, s, RunChecker(launch));
            if Checker !in s.files || c.isBlank(s.files[Checker]) then s'.files == s.files
            else
              match launch
              case CannotStart => s'.files == s.files - {CheckReceipt, CheckResult}
              case Launched(command, timedOut) =>
                timedOut || !Clean(c, s, command) ==> s'.files == Left(c, s, command) && CheckReceipt !in s'.files
  {
    if launch.Launched? {
      LeftEvidence(c, s, launch.command);
    }
  }

  /**
   After any sequence of reviewer tool calls in a review that starts without a receipt, a
   receipt on disk matches all four files, and checker, input and solution are what they
   were before that check was launched.
   */
  lemma {:induction false} ReceiptAlwaysCurrent(c: Checks, s: Session, calls: seq<Call>)
    requires ProtectsEvidence(c.rules) && ReceiptCurrent(s)
    ensures ReceiptCurrent(RunCalls(c, s, calls))
    decreases |calls|
  {
    if calls != [] {
      StepKeeps(c, s, calls[0]);
      ReceiptAlwaysCurrent(c, Step(c, s, calls[0]), calls[1..]);
    }
  }
}
