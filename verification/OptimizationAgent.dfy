/** The agent object: a state replaced step by step, proved against the run semantics. */
module OptimizationAgents {
  import opened Wrappers
  import opened AgentModels
  import opened FeasibilityRouting
  import opened StageFlow
  import opened VerdictLog
  import opened StageRuns

  /** How a call of the agent's loop ends. */
  datatype End = Stopped(outcome: Outcome) | Raised | Unfinished

  /** A running stage delivers a result that belongs to another one. */
  predicate Mismatched(s: AgentState, step: Step) {
    step.Turn? && s.currentStage.Some? && s.currentStage != Some(ResultStage(step.result))
  }

  class OptimizationAgent {
    const arm: Arm
    var state: AgentState
    ghost var log: Log   // completed solves and reviews since the last resume

    ghost predicate Valid()
      reads this
    {
      Invariant(arm, Here())
    }

    ghost function Here(): World
      reads this
    {
      World(state, log)
    }

    constructor (arm: Arm, problemDescription: string)
      ensures Valid() && this.arm == arm && Here() == Start(problemDescription)
    {
      this.arm := arm;
      state, log := InitialState(problemDescription), [];
      new;
      StartInvariant(arm, problemDescription);
    }

    /** Accepts an answer only while questions are pending; otherwise nothing changes. */
    method ResumeWith(message: string) returns (accepted: bool)
      requires Valid()
      modifies this
      ensures Valid()
      ensures accepted <==> old(state.currentStage == None && state.pendingQuestions != [])
      ensures accepted ==> Transition(arm, old(Here()), Answer(message)) == Ok(Here())
      ensures !accepted ==> Here() == old(Here())
    {
      if state.currentStage != None || state.pendingQuestions == [] {
        return false;
      }
      StepKeeps(arm, Here(), Answer(message));
      state := Resume(state, message).value;
      log := [];
      accepted := true;
    }

    /**
     Run stages until the agent stops, a stage delivers a result of another stage, or the
     supplied stage outcomes are used up. The agent ends in the world the run semantics
     prescribes, and only a result of another stage makes it raise.
    */
    method Outputs(steps: seq<Step>) returns (end: End, used: nat)
      requires Valid()
      requires forall i :: 0 <= i < |steps| ==> !steps[i].Answer? && (steps[i].Turn? ==> ValidResult(steps[i].result))
      modifies this
      ensures Valid() && used <= |steps|
      ensures Run(arm, old(Here()), steps[..used]) == Some(Ok(Here()))
      ensures match end
              case Stopped(outcome) =>
                state.currentStage == None && outcome == OutcomeOf(state) && outcome != ProtocolError
              case Raised => used < |steps| && Mismatched(state, steps[used])
              case Unfinished => used == |steps| && state.currentStage.Some?
    {
      used := 0;
      while used < |steps| && state.currentStage.Some?
        invariant Valid() && used <= |steps|
        invariant Run(arm, old(Here()), steps[..used]) == Some(Ok(Here()))
      {
        var step := steps[used];
        if Mismatched(state, step) {
          return Raised, used;
        }
        TakeStep(step);
        RunAppend(arm, old(Here()), steps[..used], step);
        PrefixGrows(steps, used);
        used := used + 1;
      }
      assert OneOutcome(state);
      end := if state.currentStage == None then Stopped(OutcomeOf(state)) else Unfinished;
    }

    /** Prepare the workspace, publish the prepared state, then apply the stage's result. */
    method TakeStep(step: Step)
      requires Valid() && !step.Answer? && ValidStep(Here(), step)
      modifies this
      ensures Valid() && Transition(arm, old(Here()), step) == Ok(Here())
    {
      ghost var before := Here();
      StepKeeps(arm, before, step);
      match step {
        case Abort(message) =>
          state := ApplyStageResult(arm, state, Failed(state.currentStage.value, message)).value;
        case Turn(baselines, transcript, result) =>
          PrepareKeeps(arm, before, baselines);
          state := Prepare(state, baselines).value;
          var stage := state.currentStage.value;
          var produced := result;
          if MissingPrerequisite(arm, state) {
            produced := Failed(stage, "missing prerequisite");
          } else if stage == Intake && transcript != [] {
            state := state.(conversation := transcript);
          }
          state := ApplyStageResult(arm, state, produced).value;
          log := log + Entries(produced);
          assert MissingPrerequisite(arm, Prepare(before.state, baselines).value) ==> log == before.log;
      }
    }
  }

  lemma PrefixGrows<T>(xs: seq<T>, n: nat)
    requires n < |xs|
    ensures xs[..n + 1] == xs[..n] + [xs[n]]
  {
  }
}
