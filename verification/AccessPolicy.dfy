/** Stage-aware read and write rules for protected workspace files. */
module AccessPolicy {
  import opened Wrappers
  import opened AgentModels

  /** Resolved workspace paths: the files with a fixed name, two directory trees, and the rest. */
  datatype FileName =
    | StageOutput(stage: Stage)          // stage_outputs/<stage>.json
    | InputSchema                        // input_schema.json
    | SolutionSchema                     // solution_schema.json
    | FixedSolutionContract              // fixed_solution_contract.json
    | Checker                            // feasibility_checker.py
    | SolverInput                        // input.json
    | InputBuilder                       // from_data_to_input.py
    | SolverCode                         // solver.py
    | Solution                           // solution.json
    | SolverResultFile                   // solver_result.json
    | RuntimeOutcome                     // runtime_solver_outcome.json
    | SolverReceiptFile                  // solver_execution_receipt.json
    | CheckResult                        // feasibility_result.json
    | CheckReceipt                       // feasibility_check_receipt.json
    | ReviewHistory                      // feasibility_review_history.json
    | HandoffFile(target: Stage, attempt: nat, name: string)   // feasibility_handoffs/<stage>/attempt<n>/<name>
    | HandoffOther(target: Stage, rest: string)                // anything else under feasibility_handoffs/<stage>
    | ProblemText                        // problem.md
    | DataFile(rest: string)             // data/...
    | Other(path: string)

  /** A rule names one file, or a directory with everything below it. */
  datatype Place = TheFile(file: FileName) | HandoffTree(target: Stage) | DataTree

  /** `writers` absent means unrestricted. */
  datatype Rule = Rule(place: Place, writers: Option<set<Stage>>, readerBlacklist: set<Stage>)

  function FileRule(file: FileName, writers: set<Stage>, readerBlacklist: set<Stage>): Rule {
    Rule(TheFile(file), Some(writers), readerBlacklist)
  }

  /** The default rule at a position of the rule table. */
  function DefaultRule(i: nat): Rule {
    if i == 0 then FileRule(StageOutput(Intake), {Intake}, {})
    else if i == 1 then FileRule(StageOutput(ProblemContract), {ProblemContract}, {AlgorithmDesign})
    else if i == 2 then FileRule(StageOutput(AlgorithmDesign), {AlgorithmDesign}, {})
    else if i == 3 then FileRule(StageOutput(GurobiFormulator), {GurobiFormulator}, {})
    else if i == 4 then FileRule(StageOutput(Solving), {Solving}, {})
    else if i == 5 then FileRule(StageOutput(FeasibilityReview), {FeasibilityReview}, {})
    else if i == 6 then FileRule(StageOutput(Explanation), {Explanation}, {})
    else if i == 7 then FileRule(InputSchema, {ProblemContract}, {AlgorithmDesign})
    else if i == 8 then FileRule(SolutionSchema, {ProblemContract}, {AlgorithmDesign})
    else if i == 9 then FileRule(FixedSolutionContract, {}, {})
    else if i == 10 then FileRule(Checker, {ProblemContract}, {AlgorithmDesign, Solving})
    else if i == 11 then FileRule(SolverInput, {Solving}, {})
    else if i == 12 then FileRule(InputBuilder, {Solving}, {})
    else if i == 13 then FileRule(SolverCode, {Solving}, {})
    else if i == 14 then FileRule(Solution, {}, {})
    else if i == 15 then FileRule(SolverResultFile, {Solving}, {})
    else if i == 16 then FileRule(RuntimeOutcome, {}, {})
    else if i == 17 then FileRule(SolverReceiptFile, {}, {AlgorithmDesign})
    else if i == 18 then FileRule(CheckResult, {}, {AlgorithmDesign, Solving})
    else if i == 19 then FileRule(CheckReceipt, {}, {AlgorithmDesign, Solving})
    else if i == 20 then FileRule(ReviewHistory, {}, {AlgorithmDesign, Solving})
    else if i == 21 then Rule(HandoffTree(AlgorithmDesign), Some({}), {Intake, ProblemContract})
    else if i == 22 then Rule(HandoffTree(Solving), Some({}), {Intake, ProblemContract, AlgorithmDesign})
    else if i == 23 then Rule(HandoffTree(GurobiFormulator), Some({}), {Intake, ProblemContract, AlgorithmDesign})
    else if i == 24 then Rule(TheFile(ProblemText), None, {})
    else Rule(DataTree, None, {})
  }

  const RULE_COUNT := 26

  function DefaultRules(): (rules: seq<Rule>)
    ensures |rules| == RULE_COUNT
    ensures forall i :: 0 <= i < RULE_COUNT ==> rules[i] == DefaultRule(i)
  {
    seq(RULE_COUNT, i requires 0 <= i < RULE_COUNT => DefaultRule(i))
  }

  predicate IsSubmitted(place: Place) {
    place in {TheFile(StageOutput(Solving)), TheFile(SolverResultFile), TheFile(Solution)}
  }

  /** Solving submits its final files through the dedicated tool only. */
  function WithSolvingOutcomeSubmission(rules: seq<Rule>): (r: seq<Rule>)
    ensures |r| == |rules|
    ensures forall i :: 0 <= i < |rules| ==>
      r[i] == if IsSubmitted(rules[i].place) then rules[i].(writers := Some({})) else rules[i]
  {
    seq(|rules|, i requires 0 <= i < |rules| =>
          if IsSubmitted(rules[i].place) then rules[i].(writers := Some({})) else rules[i])
  }

  predicate Covers(place: Place, file: FileName) {
    match place
    case TheFile(f) => f == file
    case HandoffTree(target) => (file.HandoffFile? || file.HandoffOther?) && file.target == target
    case DataTree => file.DataFile?
  }

  /** The first rule that covers a file decides about it. */
  function MatchingRule(rules: seq<Rule>, file: FileName): Option<Rule> {
    if rules == [] then None else if Covers(rules[0].place, file) then Some(rules[0]) else MatchingRule(rules[1..], file)
  }

  predicate MayWrite(rules: seq<Rule>, stage: Stage, file: FileName) {
    match MatchingRule(rules, file)
    case None => true
    case Some(rule) => rule.writers == None || stage in rule.writers.value
  }

  predicate Protects(rule: Rule, stage: Stage) {
    rule.place.TheFile? && rule.writers.Some? && stage !in rule.writers.value
  }

  predicate Hides(rule: Rule, stage: Stage) {
    rule.place.TheFile? && stage in rule.readerBlacklist
  }

  /** Fixed files the stage must not change, in rule order; directory rules are left to the tools. */
  function UnauthorizedWriteTargets(rules: seq<Rule>, stage: Stage): (targets: seq<FileName>)
    ensures forall f :: f in targets <==> exists r :: r in rules && Protects(r, stage) && r.place == TheFile(f)
  {
    if rules == [] then []
    else
      var rest := UnauthorizedWriteTargets(rules[1..], stage);
      assert rules == [rules[0]] + rules[1..];
      if Protects(rules[0], stage) then [rules[0].place.file] + rest else rest
  }

  /** Existing fixed files the stage must not see, in rule order. */
  function UnreadableFileTargets(rules: seq<Rule>, stage: Stage, existing: set<FileName>): (targets: seq<FileName>)
    ensures forall f :: f in targets <==>
      f in existing && exists r :: r in rules && Hides(r, stage) && r.place == TheFile(f)
  {
    if rules == [] then []
    else
      var rest := UnreadableFileTargets(rules[1..], stage, existing);
      assert rules == [rules[0]] + rules[1..];
      if Hides(rules[0], stage) && rules[0].place.file in existing then [rules[0].place.file] + rest else rest
  }

  predicate DistinctPlaces(rules: seq<Rule>) {
    forall i, j :: 0 <= i < j < |rules| ==> rules[i].place != rules[j].place
  }

  predicate NoRepeats(files: seq<FileName>) {
    forall i, j :: 0 <= i < j < |files| ==> files[i] != files[j]
  }

  lemma PrependDistinct(file: FileName, files: seq<FileName>)
    requires NoRepeats(files) && file !in files
    ensures NoRepeats([file] + files)
  {
  }

  lemma {:induction false} TargetsDistinct(rules: seq<Rule>, stage: Stage, existing: set<FileName>)
    requires DistinctPlaces(rules)
    ensures NoRepeats(UnauthorizedWriteTargets(rules, stage))
    ensures NoRepeats(UnreadableFileTargets(rules, stage, existing))
  {
    if rules != [] {
      var first, rest := rules[0], rules[1..];
      TargetsDistinct(rest, stage, existing);
      assert forall r :: r in rest ==> r.place != first.place;
      if first.place.TheFile? {
        PrependDistinct(first.place.file, UnauthorizedWriteTargets(rest, stage));
        PrependDistinct(first.place.file, UnreadableFileTargets(rest, stage, existing));
      }
    }
  }

  /** A protected file cannot be written through the tools either, unless an earlier rule decides. */
  lemma {:induction false} ProtectedNotWritable(rules: seq<Rule>, stage: Stage, file: FileName, i: nat)
    requires i < |rules| && rules[i].place == TheFile(file) && Protects(rules[i], stage)
    requires forall k :: 0 <= k < i ==> !Covers(rules[k].place, file)
    ensures !MayWrite(rules, stage, file)
  {
    if i > 0 {
      ProtectedNotWritable(rules[1..], stage, file, i - 1);
    }
  }

  /** Position of the default rule for a place. */
  function RuleNumber(place: Place): int {
    match place
    case TheFile(StageOutput(Intake)) => 0
    case TheFile(StageOutput(ProblemContract)) => 1
    case TheFile(StageOutput(AlgorithmDesign)) => 2
    case TheFile(StageOutput(GurobiFormulator)) => 3
    case TheFile(StageOutput(Solving)) => 4
    case TheFile(StageOutput(FeasibilityReview)) => 5
    case TheFile(StageOutput(Explanation)) => 6
    case TheFile(InputSchema) => 7
    case TheFile(SolutionSchema) => 8
    case TheFile(FixedSolutionContract) => 9
    case TheFile(Checker) => 10
    case TheFile(SolverInput) => 11
    case TheFile(InputBuilder) => 12
    case TheFile(SolverCode) => 13
    case TheFile(Solution) => 14
    case TheFile(SolverResultFile) => 15
    case TheFile(RuntimeOutcome) => 16
    case TheFile(SolverReceiptFile) => 17
    case TheFile(CheckResult) => 18
    case TheFile(CheckReceipt) => 19
    case TheFile(ReviewHistory) => 20
    case HandoffTree(AlgorithmDesign) => 21
    case HandoffTree(Solving) => 22
    case HandoffTree(GurobiFormulator) => 23
    case TheFile(ProblemText) => 24
    case DataTree => 25
    case _ => -1
  }

  lemma RulesAreNumbered(i: nat)
    requires i < RULE_COUNT
    ensures RuleNumber(DefaultRule(i).place) == i
  {
  }

  /** The default rules name every place once, so the snapshots are well defined. */
  lemma DefaultRulesDistinct()
    ensures DistinctPlaces(DefaultRules())
  {
    forall i, j | 0 <= i < j < RULE_COUNT
      ensures DefaultRules()[i].place != DefaultRules()[j].place
    {
      RulesAreNumbered(i);
      RulesAreNumbered(j);
    }
  }

  lemma SubmissionKeepsPlaces(rules: seq<Rule>)
    requires DistinctPlaces(rules)
    ensures DistinctPlaces(WithSolvingOutcomeSubmission(rules))
  {
  }

  /** A file with a rule of its own is covered by no other default rule. */
  lemma OnlyOwnRuleCovers(file: FileName, k: nat)
    requires k < RULE_COUNT && Covers(DefaultRule(k).place, file)
    requires !file.HandoffFile? && !file.HandoffOther? && !file.DataFile?
    ensures k == RuleNumber(TheFile(file))
  {
    RulesAreNumbered(k);
  }

  lemma OwnRuleDecides(rules: seq<Rule>, stage: Stage, file: FileName, i: nat)
    requires |rules| == RULE_COUNT && forall k :: 0 <= k < RULE_COUNT ==> rules[k].place == DefaultRule(k).place
    requires i < RULE_COUNT && rules[i].place == TheFile(file) && Protects(rules[i], stage)
    requires !file.HandoffFile? && !file.HandoffOther? && !file.DataFile?
    ensures !MayWrite(rules, stage, file) && file in UnauthorizedWriteTargets(rules, stage)
  {
    RulesAreNumbered(i);
    forall k | 0 <= k < i
      ensures !Covers(rules[k].place, file)
    {
      if Covers(DefaultRule(k).place, file) {
        OnlyOwnRuleCovers(file, k);
      }
    }
    ProtectedNotWritable(rules, stage, file, i);
    assert rules[i] in rules;
  }
}
