/**
 What happens to the workspace when a run is sent back for repair: the rejected files are
 copied for the responsible stage, and only then cleared.
 */
module Handoff {
  import opened Wrappers
  import opened AgentModels
  import opened AccessPolicy
  import opened Workspace

  datatype Baseline = Baseline(source: FileName, name: string)

  /** The files a responsible stage gets to start its repair from. */
  function HandoffFiles(responsibility: Stage): seq<Baseline> {
    if responsibility == GurobiFormulator then
      [Baseline(StageOutput(GurobiFormulator), "previous_gurobi_formulation.json"),
       Baseline(Solution, "previous_solution.json")]
    else
      [Baseline(StageOutput(AlgorithmDesign), "previous_algorithm_design.json"),
       Baseline(Solution, "previous_solution.json")]
      + if responsibility == Solving then [Baseline(SolverCode, "previous_solver.py")] else []
  }

  predicate Superseded(f: FileName, responsibility: Stage, attempt: nat) {
    f.HandoffFile? && !(f.target == responsibility && f.attempt == attempt)
  }

  /** Delete every handoff attempt directory but the one being prepared. */
  function Retire(files: Files, responsibility: Stage, attempt: nat): Files {
    map f | f in files && !Superseded(f, responsibility, attempt) :: files[f]
  }

  function Destination(responsibility: Stage, attempt: nat, b: Baseline): FileName {
    HandoffFile(responsibility, attempt, b.name)
  }

  /** Copy the baselines that exist, in order. */
  function CopyBaselines(files: Files, responsibility: Stage, attempt: nat, baselines: seq<Baseline>): Files {
    if baselines == [] then files
    else
      var b, rest := baselines[|baselines| - 1], baselines[..|baselines| - 1];
      var copied := CopyBaselines(files, responsibility, attempt, rest);
      if b.source in copied then copied[Destination(responsibility, attempt, b) := copied[b.source]] else copied
  }

  function Existing(files: Files, baselines: seq<Baseline>): seq<string> {
    if baselines == [] then []
    else
      var b, rest := baselines[|baselines| - 1], baselines[..|baselines| - 1];
      Existing(files, rest) + if b.source in files then [b.name] else []
  }

  predicate ResetForSolving(f: FileName) {
    f in {StageOutput(Solving), InputBuilder, SolverCode, SolverInput, Solution, SolverResultFile, RuntimeOutcome,
          CheckResult, CheckReceipt, SolverReceiptFile, StageOutput(FeasibilityReview), StageOutput(Explanation)}
  }

  /** Files removed before a stage runs again: its own outputs and everything downstream. */
  predicate ResetBy(stage: Stage, f: FileName) {
    match stage
    case Intake =>
      f.StageOutput? || f in {ReviewHistory, InputSchema, SolutionSchema, Checker, InputBuilder, SolverInput, SolverCode,
                              Solution, SolverResultFile, RuntimeOutcome, CheckResult, CheckReceipt, SolverReceiptFile}
    case ProblemContract =>
      f in {StageOutput(ProblemContract), ReviewHistory, InputSchema, SolutionSchema, Checker,
            StageOutput(AlgorithmDesign), StageOutput(Solving), InputBuilder, SolverInput, SolverCode, Solution,
            SolverResultFile, RuntimeOutcome, CheckResult, CheckReceipt, SolverReceiptFile,
            StageOutput(FeasibilityReview), StageOutput(Explanation)}
    case GurobiFormulator =>
      f == StageOutput(GurobiFormulator) || ResetForSolving(f)
    case AlgorithmDesign =>
      f == StageOutput(AlgorithmDesign) || ResetForSolving(f)
    case Solving => ResetForSolving(f)
    case FeasibilityReview =>
      f in {CheckResult, CheckReceipt, SolverReceiptFile, StageOutput(FeasibilityReview), StageOutput(Explanation)}
    case Explanation => f == StageOutput(Explanation)
  }

  function Reset(files: Files, stage: Stage): Files {
    map f | f in files && !ResetBy(stage, f) :: files[f]
  }

  method PrepareFeasibilityHandoff(files: Files, responsibility: Stage, attempt: nat)
    returns (after: Files, prepared: seq<string>)
    ensures after == CopyBaselines(Retire(files, responsibility, attempt), responsibility, attempt,
                                   HandoffFiles(responsibility))
    ensures prepared == Existing(files, HandoffFiles(responsibility))
  {
    after := Retire(files, responsibility, attempt);
    prepared := [];
    var baselines := HandoffFiles(responsibility);
    ghost var retired := after;
    BaselineNamesDistinct(responsibility);
    for i := 0 to |baselines|
      invariant after == CopyBaselines(retired, responsibility, attempt, baselines[..i])
      invariant prepared == Existing(files, baselines[..i])
    {
      var b := baselines[i];
      NextBaseline(files, responsibility, attempt, baselines, i);
      if b.source in after {
        after := after[Destination(responsibility, attempt, b) := after[b.source]];
        prepared := prepared + [b.name];
      }
    }
    assert baselines[..|baselines|] == baselines;
  }

  /** Copying one baseline more, whose source is as it was before any copy. */
  lemma NextBaseline(files: Files, responsibility: Stage, attempt: nat, baselines: seq<Baseline>, i: nat)
    requires i < |baselines| && forall b :: b in baselines ==> !b.source.HandoffFile?
    ensures var b, retired := baselines[i], Retire(files, responsibility, attempt);
            var copied := CopyBaselines(retired, responsibility, attempt, baselines[..i]);
            && (b.source in copied <==> b.source in files)
            && CopyBaselines(retired, responsibility, attempt, baselines[..i + 1])
               == (if b.source in copied then copied[Destination(responsibility, attempt, b) := copied[b.source]]
                   else copied)
            && Existing(files, baselines[..i + 1])
               == Existing(files, baselines[..i]) + if b.source in files then [b.name] else []
  {
    var b, retired := baselines[i], Retire(files, responsibility, attempt);
    assert baselines[..i + 1][..i] == baselines[..i];
    CopiesKeepSources(retired, responsibility, attempt, baselines[..i], b.source);
    assert b in baselines;
    assert Lookup(retired, b.source) == Lookup(files, b.source);
  }

  // ---- Nothing is lost between rejection and repair ------------------------

  lemma {:induction false} CopiesKeepSources(files: Files, responsibility: Stage, attempt: nat,
                                            baselines: seq<Baseline>, f: FileName)
    requires forall b :: b in baselines ==> f != Destination(responsibility, attempt, b)
    ensures Lookup(CopyBaselines(files, responsibility, attempt, baselines), f) == Lookup(files, f)
  {
    if baselines != [] {
      var rest := baselines[..|baselines| - 1];
      assert forall b :: b in rest ==> b in baselines;
      assert baselines[|baselines| - 1] in baselines;
      CopiesKeepSources(files, responsibility, attempt, rest, f);
    }
  }

  predicate DistinctNames(baselines: seq<Baseline>) {
    forall i, j :: 0 <= i < j < |baselines| ==> baselines[i].name != baselines[j].name
  }

  lemma {:induction false} CopyHoldsSource(files: Files, responsibility: Stage, attempt: nat,
                                          baselines: seq<Baseline>, i: nat)
    requires DistinctNames(baselines) && forall b :: b in baselines ==> !b.source.HandoffFile?
    requires i < |baselines| && baselines[i].source in files
    ensures Lookup(CopyBaselines(files, responsibility, attempt, baselines),
                   Destination(responsibility, attempt, baselines[i])) == Lookup(files, baselines[i].source)
  {
    var n := |baselines| - 1;
    var last, rest := baselines[n], baselines[..n];
    var copied := CopyBaselines(files, responsibility, attempt, rest);
    assert last in baselines;
    if i < n {
      assert rest[i] == baselines[i];
      assert DistinctNames(rest) && forall b :: b in rest ==> b in baselines;
      CopyHoldsSource(files, responsibility, attempt, rest, i);
      assert last.name != baselines[i].name;
    } else {
      CopiesKeepSources(files, responsibility, attempt, rest, last.source);
      assert Lookup(copied, last.source) == Lookup(files, last.source);
    }
  }

  lemma BaselineNamesDistinct(responsibility: Stage)
    ensures DistinctNames(HandoffFiles(responsibility))
    ensures forall b :: b in HandoffFiles(responsibility) ==> !b.source.HandoffFile?
  {
    assert |"previous_gurobi_formulation.json"| == 32 && |"previous_algorithm_design.json"| == 30;
    assert |"previous_solution.json"| == 22 && |"previous_solver.py"| == 18;
  }

  /** The workspace a responsible stage starts from. */
  function Rewound(files: Files, responsibility: Stage, attempt: nat): Files {
    Reset(CopyBaselines(Retire(files, responsibility, attempt), responsibility, attempt,
                        HandoffFiles(responsibility)), responsibility)
  }

  /** Every baseline the rejected candidate had survives the reset that removes its original. */
  lemma BaselineSurvivesReset(files: Files, responsibility: Stage, attempt: nat, i: nat)
    requires i < |HandoffFiles(responsibility)| && HandoffFiles(responsibility)[i].source in files
    ensures Lookup(Rewound(files, responsibility, attempt),
                   Destination(responsibility, attempt, HandoffFiles(responsibility)[i]))
         == Lookup(files, HandoffFiles(responsibility)[i].source)
  {
    var b := HandoffFiles(responsibility)[i];
    BaselineNamesDistinct(responsibility);
    assert b in HandoffFiles(responsibility);
    var retired := Retire(files, responsibility, attempt);
    assert Lookup(retired, b.source) == Lookup(files, b.source);
    CopyHoldsSource(retired, responsibility, attempt, HandoffFiles(responsibility), i);
    ResetSpares(CopyBaselines(retired, responsibility, attempt, HandoffFiles(responsibility)), responsibility,
                Destination(responsibility, attempt, b));
  }

  /** No reset ever touches a handoff file. */
  lemma ResetSpares(files: Files, stage: Stage, f: FileName)
    requires f.HandoffFile?
    ensures Lookup(Reset(files, stage), f) == Lookup(files, f)
  {
  }

  /** Nothing else: outputs to be redone are gone, older attempts are gone, the rest is untouched. */
  lemma RewoundRest(files: Files, responsibility: Stage, attempt: nat, f: FileName)
    requires forall b :: b in HandoffFiles(responsibility) ==> f != Destination(responsibility, attempt, b)
    ensures Lookup(Rewound(files, responsibility, attempt), f)
         == if ResetBy(responsibility, f) || Superseded(f, responsibility, attempt) then None else Lookup(files, f)
  {
    CopiesKeepSources(Retire(files, responsibility, attempt), responsibility, attempt, HandoffFiles(responsibility), f);
  }

  // ---- Said file by file ---------------------------------------------------

  /** The stage that produces a file; the solver receipt and the review history go by where they stop to count. */
  function MadeFor(f: FileName): Option<Stage> {
    match f
    case StageOutput(stage) => Some(stage)
    case InputSchema => Some(ProblemContract)
    case SolutionSchema => Some(ProblemContract)
    case Checker => Some(ProblemContract)
    case ReviewHistory => Some(ProblemContract)
    case InputBuilder => Some(Solving)
    case SolverInput => Some(Solving)
    case SolverCode => Some(Solving)
    case Solution => Some(Solving)
    case SolverResultFile => Some(Solving)
    case RuntimeOutcome => Some(Solving)
    case CheckResult => Some(FeasibilityReview)
    case CheckReceipt => Some(FeasibilityReview)
    case SolverReceiptFile => Some(FeasibilityReview)
    case _ => None
  }

  /**
   A stage clears what it or a later stage makes, and nothing that an earlier stage made. The
   formulation alone outlives a return to the contract or to the design.
  */
  lemma ResetFollowsTheStages(stage: Stage, f: FileName)
    ensures ResetBy(stage, f)
       <==> && MadeFor(f).Some? && Position(stage) <= Position(MadeFor(f).value)
            && !(f == StageOutput(GurobiFormulator) && stage in {ProblemContract, AlgorithmDesign})
  {
  }

  /** Of all handoff directories only the one being prepared stays. */
  lemma OnlyThisAttemptStays(files: Files, responsibility: Stage, attempt: nat, target: Stage, n: nat, name: string)
    ensures HandoffFile(target, n, name) in Retire(files, responsibility, attempt)
       <==> HandoffFile(target, n, name) in files && target == responsibility && n == attempt
    ensures forall f: FileName :: !f.HandoffFile? ==> Lookup(Retire(files, responsibility, attempt), f) == Lookup(files, f)
  {
  }

  /** Where one baseline ends up: a copy of its source, or what was there when it has none. */
  lemma {:induction false} CopyAt(files: Files, responsibility: Stage, attempt: nat, baselines: seq<Baseline>, i: nat)
    requires DistinctNames(baselines) && (forall b :: b in baselines ==> !b.source.HandoffFile?) && i < |baselines|
    ensures Lookup(CopyBaselines(files, responsibility, attempt, baselines),
                   Destination(responsibility, attempt, baselines[i]))
         == if baselines[i].source in files then Lookup(files, baselines[i].source)
            else Lookup(files, Destination(responsibility, attempt, baselines[i]))
  {
    if baselines[i].source in files {
      CopyHoldsSource(files, responsibility, attempt, baselines, i);
    } else {
      MissingIsNotCopied(files, responsibility, attempt, baselines, baselines[i]);
    }
  }

  lemma {:induction false} MissingIsNotCopied(files: Files, responsibility: Stage, attempt: nat,
                                             baselines: seq<Baseline>, b: Baseline)
    requires b.source !in files && !b.source.HandoffFile?
    requires forall c :: c in baselines ==> !c.source.HandoffFile? && (c.name == b.name ==> c == b)
    ensures Lookup(CopyBaselines(files, responsibility, attempt, baselines), Destination(responsibility, attempt, b))
         == Lookup(files, Destination(responsibility, attempt, b))
  {
    if baselines != [] {
      var last, rest := baselines[|baselines| - 1], baselines[..|baselines| - 1];
      assert last in baselines && forall c :: c in rest ==> c in baselines;
      MissingIsNotCopied(files, responsibility, attempt, rest, b);
      CopiesKeepSources(files, responsibility, attempt, rest, b.source);
      assert Lookup(CopyBaselines(files, responsibility, attempt, rest), b.source) == None;
    }
  }

  lemma RewoundBaseline(files: Files, responsibility: Stage, attempt: nat, i: nat)
    requires i < |HandoffFiles(responsibility)|
    ensures var b := HandoffFiles(responsibility)[i];
            Lookup(Rewound(files, responsibility, attempt), Destination(responsibility, attempt, b))
            == if b.source in files then Lookup(files, b.source)
               else Lookup(files, Destination(responsibility, attempt, b))
  {
    var b := HandoffFiles(responsibility)[i];
    BaselineNamesDistinct(responsibility);
    assert b in HandoffFiles(responsibility);
    var retired := Retire(files, responsibility, attempt);
    assert Lookup(retired, b.source) == Lookup(files, b.source);
    CopyAt(retired, responsibility, attempt, HandoffFiles(responsibility), i);
    ResetSpares(CopyBaselines(retired, responsibility, attempt, HandoffFiles(responsibility)), responsibility,
                Destination(responsibility, attempt, b));
  }

  /** The file is the copy of its source; without a source it is what was there. */
  predicate CopiedTo(files: Files, after: Files, source: FileName, copy: FileName) {
    Lookup(after, copy) == if source in files then Lookup(files, source) else Lookup(files, copy)
  }

  /** What each responsible stage finds in its attempt's directory. */
  lemma BaselinesByStage(files: Files, attempt: nat)
    ensures var after := Rewound(files, GurobiFormulator, attempt);
            && CopiedTo(files, after, StageOutput(GurobiFormulator),
                        HandoffFile(GurobiFormulator, attempt, "previous_gurobi_formulation.json"))
            && CopiedTo(files, after, Solution, HandoffFile(GurobiFormulator, attempt, "previous_solution.json"))
    ensures var after := Rewound(files, AlgorithmDesign, attempt);
            && CopiedTo(files, after, StageOutput(AlgorithmDesign),
                        HandoffFile(AlgorithmDesign, attempt, "previous_algorithm_design.json"))
            && CopiedTo(files, after, Solution, HandoffFile(AlgorithmDesign, attempt, "previous_solution.json"))
    ensures var after := Rewound(files, Solving, attempt);
            && CopiedTo(files, after, StageOutput(AlgorithmDesign),
                        HandoffFile(Solving, attempt, "previous_algorithm_design.json"))
            && CopiedTo(files, after, Solution, HandoffFile(Solving, attempt, "previous_solution.json"))
            && CopiedTo(files, after, SolverCode, HandoffFile(Solving, attempt, "previous_solver.py"))
  {
    RewoundBaseline(files, GurobiFormulator, attempt, 0);
    RewoundBaseline(files, GurobiFormulator, attempt, 1);
    RewoundBaseline(files, AlgorithmDesign, attempt, 0);
    RewoundBaseline(files, AlgorithmDesign, attempt, 1);
    RewoundBaseline(files, Solving, attempt, 0);
    RewoundBaseline(files, Solving, attempt, 1);
    RewoundBaseline(files, Solving, attempt, 2);
  }

  /** A baseline is reported as prepared exactly when its source exists, in the order of the list. */
  lemma {:induction false} PreparedNames(files: Files, baselines: seq<Baseline>, i: nat)
    requires i < |baselines| && DistinctNames(baselines)
    ensures baselines[i].name in Existing(files, baselines) <==> baselines[i].source in files
    ensures |Existing(files, baselines)| <= |baselines|
  {
    var n := |baselines| - 1;
    var rest := baselines[..n];
    OnlyListedNames(files, rest);
    if i < n {
      assert rest[i] == baselines[i];
      assert DistinctNames(rest);
      PreparedNames(files, rest, i);
      assert baselines[n].name != baselines[i].name;
    } else {
      assert forall b :: b in rest ==> b.name != baselines[n].name;
    }
  }

  lemma {:induction false} OnlyListedNames(files: Files, baselines: seq<Baseline>)
    ensures forall name :: name in Existing(files, baselines) ==> exists b :: b in baselines && b.name == name
    ensures |Existing(files, baselines)| <= |baselines|
  {
    if baselines != [] {
      var last, rest := baselines[|baselines| - 1], baselines[..|baselines| - 1];
      OnlyListedNames(files, rest);
      assert last in baselines && forall b :: b in rest ==> b in baselines;
    }
  }

  /** Remark, by the cleanup lists: no receipt and no candidate survives a rewind. */
  lemma RewindClearsReceipts(files: Files, responsibility: Stage, attempt: nat)
    requires responsibility in {AlgorithmDesign, GurobiFormulator, Solving}
    ensures var after := Rewound(files, responsibility, attempt);
            SolverReceiptFile !in after && CheckReceipt !in after && CheckResult !in after && Solution !in after
  {
  }

  /** Remark, by the cleanup lists: a repeated review starts without the previous checker evidence. */
  lemma RepeatedReviewStartsClean(files: Files)
    ensures CheckReceipt !in Reset(files, FeasibilityReview) && CheckResult !in Reset(files, FeasibilityReview)
    ensures Lookup(Reset(files, FeasibilityReview), Solution) == Lookup(files, Solution)
  {
  }
}
