/** Who may write what, and what is hidden from whom, said file by file instead of rule by rule. */
module AccessTables {
  import opened Wrappers
  import opened AgentModels
  import opened AccessPolicy

  /** The stages that may write a file; None for a file anybody may write. */
  function Writers(f: FileName): Option<set<Stage>> {
    match f
    case StageOutput(stage) => Some({stage})
    case InputSchema => Some({ProblemContract})
    case SolutionSchema => Some({ProblemContract})
    case Checker => Some({ProblemContract})
    case SolverInput => Some({Solving})
    case InputBuilder => Some({Solving})
    case SolverCode => Some({Solving})
    case SolverResultFile => Some({Solving})
    case HandoffFile(target, _, _) => if RepairTarget(target) then Some({}) else None
    case HandoffOther(target, _) => if RepairTarget(target) then Some({}) else None
    case ProblemText => None
    case DataFile(_) => None
    case Other(_) => None
    case _ => Some({})
  }

  predicate RepairTarget(stage: Stage) {
    stage in {AlgorithmDesign, Solving, GurobiFormulator}
  }

  /** Files with a fixed name of their own, which snapshots cover. */
  predicate Fixed(f: FileName) {
    !f.HandoffFile? && !f.HandoffOther? && !f.DataFile? && !f.Other?
  }

  predicate HiddenFrom(stage: Stage, f: FileName) {
    match stage
    case AlgorithmDesign =>
      f in {StageOutput(ProblemContract), InputSchema, SolutionSchema, Checker, SolverReceiptFile, CheckResult,
            CheckReceipt, ReviewHistory}
    case Solving => f in {Checker, CheckResult, CheckReceipt, ReviewHistory}
    case _ => false
  }

  // ---- From rules to files -------------------------------------------------

  /** The number of the one rule that covers a file, or -1. */
  function RuleFor(f: FileName): int {
    match f
    case HandoffFile(target, _, _) => RuleNumber(HandoffTree(target))
    case HandoffOther(target, _) => RuleNumber(HandoffTree(target))
    case DataFile(_) => RuleNumber(DataTree)
    case _ => RuleNumber(TheFile(f))
  }

  lemma CoveredByOwn(f: FileName, k: nat)
    requires k < RULE_COUNT
    ensures Covers(DefaultRule(k).place, f) <==> k == RuleFor(f)
  {
    RulesAreNumbered(k);
  }

  predicate DefaultPlaces(rules: seq<Rule>) {
    |rules| == RULE_COUNT && forall k :: 0 <= k < RULE_COUNT ==> rules[k].place == DefaultRule(k).place
  }

  lemma {:induction false} FirstCovering(rules: seq<Rule>, f: FileName, i: nat)
    requires i < |rules| && Covers(rules[i].place, f) && forall k :: 0 <= k < i ==> !Covers(rules[k].place, f)
    ensures MatchingRule(rules, f) == Some(rules[i])
  {
    if i > 0 {
      FirstCovering(rules[1..], f, i - 1);
    }
  }

  lemma {:induction false} NoneCovering(rules: seq<Rule>, f: FileName)
    requires forall k :: 0 <= k < |rules| ==> !Covers(rules[k].place, f)
    ensures MatchingRule(rules, f) == None
  {
    if rules != [] {
      NoneCovering(rules[1..], f);
    }
  }

  /** The one rule that covers a file decides about it. */
  lemma MatchingIsOwn(rules: seq<Rule>, f: FileName)
    requires DefaultPlaces(rules)
    ensures RuleFor(f) < RULE_COUNT
    ensures MatchingRule(rules, f) == if RuleFor(f) < 0 then None else Some(rules[RuleFor(f)])
  {
    forall k | 0 <= k < RULE_COUNT
      ensures Covers(rules[k].place, f) <==> k == RuleFor(f)
    {
      CoveredByOwn(f, k);
    }
    if RuleFor(f) < 0 {
      NoneCovering(rules, f);
    } else {
      FirstCovering(rules, f, RuleFor(f));
    }
  }

  lemma OwnWriters(f: FileName)
    ensures RuleFor(f) < RULE_COUNT
    ensures Writers(f) == if RuleFor(f) < 0 then None else DefaultRule(RuleFor(f)).writers
  {
  }

  lemma OwnReaders(stage: Stage, f: FileName)
    ensures RuleFor(f) < RULE_COUNT
    ensures HiddenFrom(stage, f)
       <==> RuleFor(f) >= 0 && DefaultRule(RuleFor(f)).place.TheFile? && stage in DefaultRule(RuleFor(f)).readerBlacklist
  {
  }

  /** Writing with the tools: exactly the named writers, and anybody where none are named. */
  lemma DefaultMayWrite(stage: Stage, f: FileName)
    ensures MayWrite(DefaultRules(), stage, f) <==> Writers(f) == None || stage in Writers(f).value
  {
    MatchingIsOwn(DefaultRules(), f);
    OwnWriters(f);
  }

  lemma OwnPlace(f: FileName)
    requires RuleFor(f) >= 0
    ensures RuleFor(f) < RULE_COUNT && (Fixed(f) ==> DefaultRule(RuleFor(f)).place == TheFile(f))
    ensures !Fixed(f) ==> !DefaultRule(RuleFor(f)).place.TheFile?
  {
  }

  /** While solving, the submitted files are written by their tool only, and nothing else changes. */
  lemma SubmittingMayWrite(stage: Stage, f: FileName)
    ensures MayWrite(WithSolvingOutcomeSubmission(DefaultRules()), stage, f)
       <==> (Writers(f) == None || stage in Writers(f).value) && f !in {StageOutput(Solving), SolverResultFile}
  {
    var rules := WithSolvingOutcomeSubmission(DefaultRules());
    MatchingIsOwn(rules, f);
    OwnWriters(f);
    if RuleFor(f) >= 0 {
      OwnPlace(f);
      assert rules[RuleFor(f)] == if IsSubmitted(DefaultRule(RuleFor(f)).place)
                                  then DefaultRule(RuleFor(f)).(writers := Some({})) else DefaultRule(RuleFor(f));
    }
  }

  // ---- Snapshots and hidden files ------------------------------------------

  lemma ProtectedIsOwn(rules: seq<Rule>, stage: Stage, f: FileName)
    requires DefaultPlaces(rules)
    ensures f in UnauthorizedWriteTargets(rules, stage) <==> Fixed(f) && !MayWrite(rules, stage, f)
  {
    MatchingIsOwn(rules, f);
    if RuleFor(f) >= 0 {
      OwnPlace(f);
      assert rules[RuleFor(f)] in rules;
    }
    if f in UnauthorizedWriteTargets(rules, stage) {
      var r :| r in rules && Protects(r, stage) && r.place == TheFile(f);
      var k :| 0 <= k < |rules| && rules[k] == r;
      CoveredByOwn(f, k);
    } else if Fixed(f) && !MayWrite(rules, stage, f) {
      assert Protects(rules[RuleFor(f)], stage);
    }
  }

  /** A stage's snapshot covers exactly the fixed files it may not write. */
  lemma DefaultProtects(stage: Stage, f: FileName)
    ensures f in UnauthorizedWriteTargets(DefaultRules(), stage)
       <==> Fixed(f) && Writers(f).Some? && stage !in Writers(f).value
  {
    ProtectedIsOwn(DefaultRules(), stage, f);
    DefaultMayWrite(stage, f);
  }

  lemma SubmittingProtects(stage: Stage, f: FileName)
    ensures f in UnauthorizedWriteTargets(WithSolvingOutcomeSubmission(DefaultRules()), stage)
       <==> Fixed(f) && ((Writers(f).Some? && stage !in Writers(f).value) || f in {StageOutput(Solving), SolverResultFile})
  {
    ProtectedIsOwn(WithSolvingOutcomeSubmission(DefaultRules()), stage, f);
    SubmittingMayWrite(stage, f);
  }

  predicate DefaultReaders(rules: seq<Rule>) {
    DefaultPlaces(rules)
    && forall k :: 0 <= k < RULE_COUNT ==> rules[k].readerBlacklist == DefaultRule(k).readerBlacklist
  }

  /** The files hidden from a stage's commands, under both rule sets. */
  lemma HiddenFiles(rules: seq<Rule>, stage: Stage, existing: set<FileName>, f: FileName)
    requires DefaultReaders(rules)
    ensures f in UnreadableFileTargets(rules, stage, existing) <==> f in existing && HiddenFrom(stage, f)
  {
    OwnReaders(stage, f);
    if f in UnreadableFileTargets(rules, stage, existing) {
      var r :| r in rules && Hides(r, stage) && r.place == TheFile(f);
      var k :| 0 <= k < |rules| && rules[k] == r;
      CoveredByOwn(f, k);
    } else if f in existing && HiddenFrom(stage, f) {
      OwnPlace(f);
      assert rules[RuleFor(f)] in rules && Hides(rules[RuleFor(f)], stage);
    }
  }

  lemma BothHideAlike()
    ensures DefaultReaders(DefaultRules()) && DefaultReaders(WithSolvingOutcomeSubmission(DefaultRules()))
  {
  }
}
