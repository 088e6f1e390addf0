# Verification model of the decision agent's core

This project models six stateful cores of the repository and proves what each of them keeps
over whole runs. It is written in Dafny; `dafny verify dfyconfig.toml` checks all of it.

- **Streaming JSON queries** (`JsonTree`, `JsonPointer`, `PathEvents`, `BoundedBuilder`,
  `StreamScans`, `IntakeDataTools`, `Decimal`). `data_get`, `data_keys` and `data_slice` answer
  pointer queries from a flat event stream, without loading the document. The loops, which share
  one mutable iterator with the bounded builder, are proved to refine lookup in the tree, and the
  lookup is proved to be RFC 6901 evaluation.
- **The feasibility-repair machine** (`AgentModels`, `FeasibilityRouting`, `StageFlow`,
  `VerdictLog`, `StageRuns`, `VerdictEffects`, `OptimizationAgents`). A log of solves and verdicts is history; the
  state kept step by step is proved to equal what would be recomputed from the log, in every
  state reachable from the start through any validated stage results, aborted stages and answers.
- **The protected workspace and its receipts** (`AccessPolicy`, `AccessTables`, `Workspace`,
  `SolvingReceipts`, `SolverOutcomes`, `CheckerReceipts`, `Handoff`, `SolvingTools`, `ReviewTools`, `WorkspaceRuns`, `SolverTrace`). A command is an
  arbitrary function of the files it can see. Frame and provenance are proved for every command
  and every sequence of tool calls, and carried through whole runs of the agent; a forged receipt
  is an ordinary file content.
- **The benchmark scheduler and circuit breaker** (`CircuitBreakers`, `TaskObservations`, `Scheduler`). Which running
  tasks end, in which order, and when the breaker trips is left open, and the ledger of tasks is
  proved sound at every moment.
- **Artifacts and the event log** (`ArtifactIndexes`, `Artifacts`, `RevisionNames`,
  `NameParts`, `ArtifactRevisions`, `InputWorkspaces`, `EventLog`, `LogContents`, `EventCodecs`, `EventPublishing`). Writes can raise before
  or after they replaced a file, appends can be cut at any byte, deliveries can fail or be
  cancelled.
- **Retrying and merging streamed tool calls** (`ToolCalls`, `LlmStream`).

Code that changes state step by step is a class or a method with its loops, proved equal to a
function of the old state; the main results are lemmas about that function over all runs. What each
operation leads to is stated besides without that function, by names, labels and files.

## Hypotheses

- Objects have unique keys where RFC 6901 evaluation is claimed. Without that hypothesis the
  streaming queries return the first match in document order, which is proved as well.
- Digests are collision-free, and generated artifact identifiers are unused.
- Commands put neither directories nor symbolic links on protected paths.
- An event's encoding is one line, reads back, and neither a strict prefix of it nor two encodings
  run together can be read (`EventLog.GoodCodec`). `EventCodecs.GoodCodecExists` gives a codec
  that meets this.
- Stage results satisfy the validators of the stage output models (`StageRuns.ValidResult`,
  `AgentModels.ValidReview`). That reviewer labels belong to the arm is not assumed.

## What the code does not promise

Each of these is stated as an exact condition, with an input that shows the failure, and the code
is modelled as it is.

- A verdict that blames the formulator sends an arm without problem contract to a stage whose
  input is missing (`StageRuns.ArmsThatMissInputs`, `StageRuns.FormulatorBlamedWithoutContract`).
- A write whose directory sync raises after the file was replaced can leave index and content in
  disagreement: a content write that fails this way has no rollback, and after an index write that
  fails this way the rollback restores the content only (`Artifacts.WriteKeepsAgreement`,
  `Artifacts.OverwriteLosesAgreement`).
- A log cut exactly before a newline reads back strictly, but the next append joins two events on
  one line and corrupts it (`EventLog.AppendAfterTruncation`, `EventLog.LostNewlineCorrupts`).
- A second cancellation that ends a delivery after it was logged leaves the publisher one number
  behind its log (`EventPublishing.CheckFiresIff`,
  `EventPublishing.SecondCancellationDesynchronises`).
- Tool-call fragments in a delta that also reports token usage are dropped
  (`LlmStream.CollectedIsAll`, `LlmStream.UsageLosesFragment`).

## Model

| member | source | states |
|---|---|---|
| `JsonPointer.UnescapeEscape` | src/decisionbrain/benchmark/intake_data_tools.py:42 | Replacing `~1` first and `~0` second, leftmost and without overlap, undoes escaping of every token, and an escaped token has no `/`. |
| `JsonPointer.ParseFormat` | src/decisionbrain/benchmark/intake_data_tools.py:37-42 | Parsing the formatted pointer of any token sequence gives that sequence back (sections 3 and 4 of RFC 6901). |
| `JsonPointer.FormatInjective` | src/decisionbrain/benchmark/intake_data_tools.py:37-42 | Different paths have different pointers. |
| `JsonPointer.FormatParse` | src/decisionbrain/benchmark/intake_data_tools.py:37-42 | Every pointer in the syntax of the standard is accepted and is the formatting of what it parses to. |
| `JsonPointer.AcceptedPointers` | src/decisionbrain/benchmark/intake_data_tools.py:37-42 | A pointer is accepted exactly when it is empty or starts with `/`, whatever else it contains. |
| `JsonPointer.StrayTildes` | src/decisionbrain/benchmark/intake_data_tools.py:42 | A `~` that starts no escape stays as it is. |
| `Decimal.IndexOfText` | src/decisionbrain/benchmark/intake_data_tools.py:61-67 | The decimal text of an index is read back by the array index syntax of RFC 6901. |
| `Decimal.TextOfIndex` | src/decisionbrain/benchmark/intake_data_tools.py:61-67 | Only that text denotes the index: no leading zeros, no other spelling. |
| `PathEvents.PathEventIterator.Next` | src/decisionbrain/benchmark/intake_data_tools.py:45-77 | One step of the labelling generator yields the head of what it still has to yield, or ends or raises as it would. |
| `PathEvents.DocumentLabels` | src/decisionbrain/benchmark/intake_data_tools.py:45-77 | On the events of any document the frame stack labels every event with its path in the tree, and never raises. |
| `BoundedBuilder.BuildBounded` | src/decisionbrain/benchmark/intake_data_tools.py:93-118 | The budgeted building loop, and what it leaves in the iterator it shares with its caller, are the function Build of the remaining stream. |
| `BoundedBuilder.BuildSubtree` | src/decisionbrain/benchmark/intake_data_tools.py:93-118 | On the labels of a value the loop returns the value and stops right behind it when the event and character counts fit; otherwise it reports the excess. |
| `BoundedBuilder.FitsMeans` | src/decisionbrain/benchmark/intake_data_tools.py:101-107 | A value fits exactly with at most 10,000 events and 20,000 scalar characters, keys not counted. |
| `BoundedBuilder.RefusalsMean` | src/decisionbrain/benchmark/intake_data_tools.py:93-118 | On any stream a value is called too large only when the rest of the stream is over a budget. |
| `JsonTree.FirstAtIsResolve` | src/decisionbrain/benchmark/intake_data_tools.py:143-151 | With unique keys, the first acceptable value in document order at a path is what RFC 6901 evaluation finds. |
| `JsonTree.CanonIsIdentity` | src/decisionbrain/benchmark/intake_data_tools.py:93-118 | With unique keys, the dictionaries the builder fills hold the document unchanged. |
| `JsonTree.LastMemberWins` | src/decisionbrain/benchmark/intake_data_tools.py:93-118 | With repeated keys the rebuilt object holds the value of the last member of a name. |
| `JsonTree.PutKeys` | src/decisionbrain/benchmark/intake_data_tools.py:93-118 | Assigning a key keeps the place of an existing one and appends a new one. |
| `StreamScans.LocateTree` | src/decisionbrain/benchmark/intake_data_tools.py:143-151 | Scanning labelled events for a path stops at the labels of the wanted value, or passes the whole value when it has none. |
| `StreamScans.GetFromTree` | src/decisionbrain/benchmark/intake_data_tools.py:143-151 | Without any hypothesis on keys: streaming get returns the first match in document order, with later branches tried under repeated keys. |
| `StreamScans.NotFoundMeans` | src/decisionbrain/benchmark/intake_data_tools.py:143-151 | On any stream get finds nothing exactly when the stream is whole and no value starts at the path. |
| `StreamScans.KeysFromTree` | src/decisionbrain/benchmark/intake_data_tools.py:154-171 | Streaming keys lists the window of the first object at the path and counts all its members. |
| `StreamScans.SliceFromTree` | src/decisionbrain/benchmark/intake_data_tools.py:174-193 | Streaming slice lists the window of the first array at the path and counts all its elements, although elements in the window are consumed by the builder. |
| `IntakeDataTools.StreamGet` | src/decisionbrain/benchmark/intake_data_tools.py:143-151 | The get loop over the mutable iterator computes ScanGet of the whole stream. |
| `IntakeDataTools.StreamKeys` | src/decisionbrain/benchmark/intake_data_tools.py:154-171 | The keys loop computes ScanKeys. |
| `IntakeDataTools.StreamSlice` | src/decisionbrain/benchmark/intake_data_tools.py:174-193 | The slice loop, with a builder advancing the same iterator, computes ScanSlice. |
| `IntakeDataTools.InvalidPointers` | src/decisionbrain/benchmark/intake_data_tools.py:37-42 | For every event source, get, keys and slice refuse a pointer as invalid exactly when it is not empty and does not start with `/`. |
| `IntakeDataTools.SliceChildHere` | src/decisionbrain/benchmark/intake_data_tools.py:186-190 | Handling one array child, skipped or rebuilt from the shared iterator, continues the scan exactly behind it. |
| `IntakeDataTools.GetRefinesReference` | src/decisionbrain/benchmark/intake_data_tools.py:143-151 | On unique keys and for every pointer that parses, get is RFC 6901 evaluation: not found exactly when the path does not resolve, and over the limit exactly when the value exceeds one of the two budgets. |
| `IntakeDataTools.SliceRefinesReference` | src/decisionbrain/benchmark/intake_data_tools.py:174-193 | On unique keys and for every pointer that parses, slice is elements `[start, start+count)` and the true length, or over the limit exactly when an element in the window does not fit. |
| `IntakeDataTools.KeysRefinesReference` | src/decisionbrain/benchmark/intake_data_tools.py:154-171 | On unique keys and for every pointer that parses, keys are members `[start, start+count)` with their kinds and the true number of members. |
| `IntakeDataTools.DataGet` | src/decisionbrain/benchmark/intake_data_tools.py:199-213 | The response is the rendered value, or an error when it is longer than the output limit. |
| `IntakeDataTools.DataSlice` | src/decisionbrain/benchmark/intake_data_tools.py:237-257 | Invalid pages are refused; otherwise the paging fields follow from the slice and the total, and an overlong rendering is an error. |
| `IntakeDataTools.DataKeys` | src/decisionbrain/benchmark/intake_data_tools.py:215-235 | Invalid pages are refused; otherwise the paging fields follow from the page and the total, and an overlong rendering is an error. |
| `IntakeDataTools.RefusedPages` | src/decisionbrain/benchmark/intake_data_tools.py:215-257 | A page is refused exactly when its start is negative or its count is outside 1 to 100. |
| `IntakeDataTools.RefusedRenderings` | src/decisionbrain/benchmark/intake_data_tools.py:134-140 | A response is refused as too long exactly when its rendering has more than 20,000 characters. |
| `IntakeDataTools.PagingFields` | src/decisionbrain/benchmark/intake_data_tools.py:215-257 | `next_start` is the end of the page exactly while the container goes on behind it. |
| `IntakeDataTools.FollowYieldsAll` | src/decisionbrain/benchmark/intake_data_tools.py:237-257 | Following `next_start` with any page sizes ends and concatenates to the whole container: nothing lost, nothing repeated. |
| `IntakeDataTools.QueriesArePages` | src/decisionbrain/benchmark/intake_data_tools.py:154-193 | Both paged queries answer every page of a container, for slices when all elements fit. |
| `IntakeDataTools.SlicePagesAddUp` | src/decisionbrain/benchmark/intake_data_tools.py:237-257 | Paging through an array whose elements fit returns the array. |
| `FeasibilityRouting.VisibleReviewHistory` | src/decisionbrain/core/feasibility_routing.py:28-49 | The loop that pops instance audits off the list computes VisibleHistory. |
| `StageFlow.LastWithAttempt` | src/decisionbrain/core/stage_flow.py:112-138 | The directive that preparation picks carries the pending attempt number. |
| `VerdictLog.StreakIsMaximalRun` | src/decisionbrain/core/feasibility_routing.py:16-25 | The recomputed streak is the maximal run of instance verdicts at the end of the log. |
| `VerdictLog.DirectivesAppend` | src/decisionbrain/core/feasibility_routing.py:81-94 | One more log entry closes the open directives when it is a verdict and changes nothing else about earlier ones. |
| `VerdictLog.OnlyLastOpen` | src/decisionbrain/core/feasibility_routing.py:81-94 | Every directive but the last has the verdict that followed it as its outcome. |
| `VerdictLog.AttemptsCountUp` | src/decisionbrain/core/feasibility_routing.py:59-78 | Directive i has attempt number i + 1. |
| `StageRuns.PendingNamesOpenDirective` | src/decisionbrain/core/stage_flow.py:112-138 | A pending handoff names the last directive and no other; it is open, has the latest attempt number and the directory preparation expects. |
| `StageRuns.PrepareKeeps` | src/decisionbrain/core/stage_flow.py:160-195 | Preparation raises neither of its errors, clears the pending work and keeps the invariant. |
| `StageRuns.ReviewStep` | src/decisionbrain/core/stage_flow.py:349-457 | No validated review makes the transition raise, and every one keeps the invariant. |
| `StageRuns.StepKeeps` | src/decisionbrain/core/stage_flow.py:266-457 | Every valid step from a state of the invariant succeeds and keeps it. |
| `StageRuns.RunKeeps` | src/decisionbrain/core/agent.py:98-168 | So does every run of valid steps. |
| `StageRuns.BookkeepingEqualsRecomputation` | src/decisionbrain/core/stage_flow.py:349-451 | In every reachable state round count, directives, audits and instance run equal their recomputation from the log of solves and verdicts since the last resume. |
| `StageRuns.PrerequisitesPresent` | src/decisionbrain/core/stage_flow.py:205-245 | A prepared stage misses an input exactly when it is the formulator stage in an arm without a problem contract. |
| `StageRuns.ArmsThatMissInputs` | src/decisionbrain/core/stage_flow.py:205-245 | Exactly the arms without a problem contract that enable the formulator or are reviewed have a reachable stage that misses its input. |
| `StageRuns.FormulatorBlamedWithoutContract` | src/decisionbrain/core/stage_flow.py:61-65 | In the arm that only drops the problem contract, a verdict that blames the formulator makes the run fail. |
| `StageRuns.VisibleHistoryWithholdsOpenRun` | src/decisionbrain/core/feasibility_routing.py:28-49 | A reviewer sees all audits except exactly the verdicts of the instance run that is still open. |
| `StageRuns.ReviewerInstructedWhileUnjudged` | src/decisionbrain/core/feasibility_routing.py:255-261 | The review stage is told about a repair exactly while only solves have followed the last repair. |
| `StageRuns.InstructedStageIsResponsible` | src/decisionbrain/core/feasibility_routing.py:97-112 | Before review, a stage carries the repair instruction exactly when the last verdict was routed to it. |
| `StageRuns.RepairReachesItsStage` | src/decisionbrain/core/stage_flow.py:112-195 | A stage that is entered for repair has its instruction, its baselines and the current attempt number. |
| `StageRuns.SuccessIsSettled` | src/decisionbrain/core/stage_flow.py:530-550 | With review, a run succeeds only after a final accept or three instance verdicts in a row, and its status is `instance_infeasible` exactly in the second case. |
| `StageRuns.SuccessWithoutReview` | src/decisionbrain/core/stage_flow.py:334-348 | Without review, a run succeeds right after a solve, with status `succeeded`. |
| `StageRuns.ReviewsBounded` | src/decisionbrain/core/stage_flow.py:363-451 | At most `3 * feasibility_rounds + 3` reviews complete between two resumes. |
| `StageRuns.StoppedHasOutcome` | src/decisionbrain/core/agent.py:290-301 | A stopped agent has exactly one of questions, failure and explanation, so it never reports a protocol error. |
| `VerdictEffects.RejectionLeads` | src/decisionbrain/core/stage_flow.py:371-418 | In every reachable review a valid rejection sends the run to the stage its label names, an `algorithm_design` label to the stage that owns the plan in this arm. Directive and audit carry that stage, and that stage alone is instructed. |
| `VerdictEffects.RejectionApplied` | src/decisionbrain/core/stage_flow.py:371-418 | The new directive has the next attempt number, the handoff, its directory and no outcome; the audit names the reported label when it differs. |
| `VerdictEffects.RejectionDrops` | src/decisionbrain/core/stage_flow.py:400-418 | Of the results only those of the responsible stage, of solving and of judging are dropped. |
| `VerdictEffects.InstanceVerdictLeads` | src/decisionbrain/core/stage_flow.py:423-451 | A verdict against the instance is the n-th in a row by the log; below three it repeats the review with the candidate kept, at three it is confirmed and explained. |
| `VerdictEffects.AcceptLeads` | src/decisionbrain/core/stage_flow.py:349-370 | An accepted candidate is explained next, with its check and without open instance verdicts. |
| `VerdictEffects.VerdictEndsInstruction` | src/decisionbrain/core/feasibility_routing.py:81-112 | After an accept or a verdict against the instance no stage is instructed to repair. |
| `VerdictEffects.NextVerdictMeans` | src/decisionbrain/core/feasibility_routing.py:81-94 | The outcome of a repair is the decision of the first verdict behind it, with the reported label of a rejection. |
| `VerdictEffects.SummaryIsClipped` | src/decisionbrain/core/feasibility_routing.py:234-252 | A directive keeps the first 80, 500 and 20 times 80 characters of status, diagnosis and methods. |
| `VerdictEffects.CompletionLeadsOn` | src/decisionbrain/core/stage_flow.py:298-348 | A completed stage leads to the first enabled stage behind it. |
| `VerdictEffects.CompletionStores` | src/decisionbrain/core/stage_flow.py:306-348 | It stores its result, and a solve also drops the earlier review; all else stays. |
| `VerdictEffects.IntakeConfirmsOrAsks` | src/decisionbrain/core/stage_flow.py:460-517 | A ready intake confirms its definition; otherwise the definition is kept unconfirmed and the questions are asked. |
| `VerdictEffects.StoppingKeepsResults` | src/decisionbrain/core/stage_flow.py:281-296 | A failed stage keeps all results, and only solving may ask back. |
| `VerdictEffects.AnswerRestarts` | src/decisionbrain/core/agent.py:77-96 | An answer restarts at intake and clears what was built on the definition. The formulation is the one result it leaves. |
| `VerdictEffects.InputsOfStages` | src/decisionbrain/core/stage_flow.py:211-247 | A stage stops at once exactly when one of the results it reads is missing. |
| `VerdictEffects.StoppedReports` | src/decisionbrain/core/agent.py:290-301 | A stopped run reports its questions, its failure or its explanation, whichever it has. |
| `VerdictEffects.StartsBlank` | src/decisionbrain/core/agent.py:73-75 | A run starts at intake with the description only, nothing counted and nothing to prepare. |
| `VerdictEffects.RefusedResults` | src/decisionbrain/core/stage_flow.py:277-296 | A result is refused exactly when it belongs to another stage, asks back outside solving, confirms no definition, or rejects without a known label or a needed handoff. |
| `VerdictEffects.AnswersTaken` | src/decisionbrain/core/agent.py:77-80 | An answer is taken exactly while a stopped run has questions. |
| `VerdictEffects.PreparedDirective` | src/decisionbrain/core/stage_flow.py:112-138 | Preparation records the baselines on the last directive of the pending attempt, and refuses one with another directory. |
| `OptimizationAgents.OptimizationAgent.constructor` | src/decisionbrain/core/agent.py:73-75 | A new agent is in the initial state. |
| `OptimizationAgents.OptimizationAgent.ResumeWith` | src/decisionbrain/core/agent.py:77-96 | An answer is accepted exactly while questions are pending, and then the state is the Answer transition. |
| `OptimizationAgents.OptimizationAgent.TakeStep` | src/decisionbrain/core/stage_flow.py:141-263 | Preparing, checking inputs and applying a result replaces the state by the one transition of the run semantics. |
| `OptimizationAgents.OptimizationAgent.Outputs` | src/decisionbrain/core/agent.py:98-160 | The loop ends in the state the run semantics prescribes. It raises exactly on a result of another stage, and publishes the outcome exactly when the agent has stopped. |
| `AccessPolicy.UnauthorizedWriteTargets` | src/decisionbrain/core/workspace_tools.py:325-335 | The files snapshotted for a stage are exactly those of the fixed-file rules that name its non-writers. |
| `AccessPolicy.UnreadableFileTargets` | src/decisionbrain/core/workspace_tools.py:337-351 | The files hidden from a stage are exactly the existing ones of the fixed-file rules that blacklist it. |
| `AccessPolicy.DefaultRulesDistinct` | src/decisionbrain/core/workspace_tools.py:376-492 | The default rules name every place once. |
| `AccessPolicy.SubmissionKeepsPlaces` | src/decisionbrain/core/workspace_tools.py:281-295 | Withdrawing the submitted files from every writer keeps the places distinct. |
| `AccessPolicy.OwnRuleDecides` | src/decisionbrain/core/workspace_tools.py:353-366 | A fixed file that its rule protects from a stage can neither be written through the tools nor escape the snapshot. |
| `AccessTables.DefaultMayWrite` | src/decisionbrain/core/workspace_tools.py:376-492 | Who may write each file with the tools, file by file: the outputs of a stage by that stage alone, and what no rule covers by anybody. |
| `AccessTables.SubmittingMayWrite` | src/decisionbrain/core/workspace_tools.py:281-295 | While solving, the same without the two submitted files. |
| `AccessTables.DefaultProtects` | src/decisionbrain/core/workspace_tools.py:325-335 | The snapshot of a stage covers exactly the fixed files it may not write. |
| `AccessTables.HiddenFiles` | src/decisionbrain/core/workspace_tools.py:337-351 | What the commands of algorithm design and of solving cannot see, file by file. |
| `Workspace.LookupAfter` | src/decisionbrain/core/workspace_tools.py:2740-2787 | A guarded command leaves protected and hidden files as they were and all other files as it made them. |
| `Workspace.WorkspaceFiles.ProtectedSnapshot` | src/decisionbrain/core/workspace_tools.py:2740-2747 | The snapshot remembers every protected file, or its absence. |
| `Workspace.WorkspaceFiles.HideUnreadableFiles` | src/decisionbrain/core/workspace_tools.py:2749-2760 | Exactly the hidden files are taken away and remembered. |
| `Workspace.WorkspaceFiles.RestoreHiddenFiles` | src/decisionbrain/core/workspace_tools.py:2762-2769 | Hidden files come back, and exactly those a command had replaced by something else are reported. |
| `Workspace.WorkspaceFiles.RestoreUnauthorizedChanges` | src/decisionbrain/core/workspace_tools.py:2771-2787 | Remembered files come back, and exactly the changed ones are reported. |
| `Workspace.WorkspaceFiles.WriteGuarded` | src/decisionbrain/core/workspace_tools.py:2457-2528 | A guarded single-file write leaves every protected file as it was. |
| `Workspace.WorkspaceFiles.RunGuarded` | src/decisionbrain/core/workspace_tools.py:1917-2158 | For every effect of the command, every file ends up as the frame prescribes, and the violations are exactly the differing files it left at hidden paths and its changes at visible protected ones. |
| `SolvingReceipts.SolvingRulesProtectSolution` | src/decisionbrain/core/workspace_tools.py:281-295 | Under the rules Solving runs with, no tool but the solver run can touch the candidate or its receipt. |
| `SolvingReceipts.SolverKeeps` | src/decisionbrain/core/workspace_tools.py:1384-1533 | A solver run that does not end the stage establishes the provenance of candidate and receipt anew. |
| `SolvingReceipts.StepKeeps` | src/decisionbrain/core/workspace_tools.py:1384-1863 | Every tool call keeps the provenance of candidate and receipt, or ends the stage. |
| `SolvingReceipts.AcceptedCandidateIsTheLastRuns` | src/decisionbrain/core/workspace_tools.py:1807-1863 | After any sequence of tool calls, an accepted candidate is byte for byte what the most recent solver run left, and solver and input are those its receipt was written for. |
| `SolvingReceipts.AcceptedWithoutCandidate` | src/decisionbrain/core/workspace_tools.py:1807-1863 | A submission accepted without a candidate follows a run whose receipt bound none, with the same solver and input. |
| `SolverOutcomes.RunWritesReceipt` | src/decisionbrain/core/workspace_tools.py:1574-1622 | A solver run that ends in time writes the receipt for solver, input and conforming candidate it left, and changes nothing else. |
| `SolverOutcomes.HonestRunIsAccepted` | src/decisionbrain/core/workspace_tools.py:1384-1533 | Right after such a run a valid submission is accepted exactly when the files left are runnable and it declares a candidate just when they hold a conforming one. |
| `SolverOutcomes.FailedRunIsRefused` | src/decisionbrain/core/workspace_tools.py:1418-1479 | A run that does not start or touches protected files leaves no receipt and nothing to submit. |
| `SolverOutcomes.NothingToRun` | src/decisionbrain/core/workspace_tools.py:1392-1411 | Without a solver text or an input object nothing runs and nothing is accepted. |
| `SolverOutcomes.TimedOutRunEnds` | src/decisionbrain/core/workspace_tools.py:1482-1504 | A terminated run ends the stage with the timeout outcome, its output and its receipt. |
| `SolverOutcomes.TimedOutShellEnds` | src/decisionbrain/core/workspace_tools.py:1917-2158 | So does a solver that is terminated in a shell command. |
| `SolverOutcomes.AcceptedWhileUnchanged` | src/decisionbrain/core/workspace_tools.py:1807-1863 | Under the same receipt and schema what was accepted stays so exactly as long as solver, input and declared candidate keep their bytes. |
| `SolverOutcomes.AcceptedUntilEdited` | src/decisionbrain/core/workspace_tools.py:1807-1863 | After any tool calls but a solver run it is accepted exactly when solver and input are the same. |
| `SolverOutcomes.SubmissionPublishes` | src/decisionbrain/core/workspace_tools.py:1731-1747 | An accepted submission publishes result and stage output; a refused one changes nothing. |
| `WorkspaceRuns.PolicyInForceIsSound` | src/decisionbrain/core/workspace_tools.py:376-492 | The rules in force keep both receipts from every stage, and candidate and evidence from Solving and review. |
| `WorkspaceRuns.ToolsCreateNoReceipt` | src/decisionbrain/core/workspace_tools.py:2740-2787 | No sequence of tools and commands of another stage creates a receipt. |
| `WorkspaceRuns.EditInForce` | src/decisionbrain/core/workspace_tools.py:2408-2545 | Under the rules in force writing and deleting reach exactly the files the stage may write. |
| `WorkspaceRuns.CommandInForce` | src/decisionbrain/core/workspace_tools.py:1917-2158 | A command decides about every file but the fixed ones of others and those hidden from its stage. |
| `WorkspaceRuns.StepFiles` | src/decisionbrain/core/stage_flow.py:141-263 | A turn works on the prepared workspace with its stage's tools, and an answer leaves the files alone. |
| `WorkspaceRuns.SessionCreatesNoCheckReceipt` | src/decisionbrain/core/workspace_tools.py:1384-1863 | No sequence of Solving tools creates a checker receipt. |
| `WorkspaceRuns.RunConfines` | src/decisionbrain/core/stage_flow.py:160-191 | In every run a solver receipt exists only behind Solving and a checker receipt only behind review, or the coming preparation removes it. |
| `WorkspaceRuns.SolvingIsReached` | src/decisionbrain/core/stage_flow.py:266-348 | Such runs exist: after a confirmed definition an arm without earlier stages is about to solve. |
| `WorkspaceRuns.SolvingStartsFresh` | src/decisionbrain/core/stage_flow.py:160-191 | Each time a run is about to solve, first or again, the prepared workspace holds no solver receipt. |
| `WorkspaceRuns.AcceptedInRun` | src/decisionbrain/core/workspace_tools.py:1807-1863 | So in every run an accepted candidate is what the most recent solver run of that session left. |
| `WorkspaceRuns.CheckedInRun` | src/decisionbrain/core/workspace_tools.py:1160-1338 | And in every run a checker receipt in any review describes the four current files. |
| `SolvingTools.SolvingToolset.WriteFile` | src/decisionbrain/core/workspace_tools.py:2408-2429 | Writing a file is the WriteFile step of the session. |
| `SolvingTools.SolvingToolset.ReplaceInFile` | src/decisionbrain/core/workspace_tools.py:2457-2528 | Replacing text that matches exactly once, with its restore of protected files, is the ReplaceInFile step; otherwise nothing changes. |
| `SolvingTools.SolvingToolset.DeleteFile` | src/decisionbrain/core/workspace_tools.py:2530-2545 | Deleting a file is the DeleteFile step. |
| `SolvingTools.SolvingToolset.Shell` | src/decisionbrain/core/workspace_tools.py:1917-2158 | A shell command, including a solver timeout detected in it, is the RunShell step; its errors are exactly the violations. |
| `SolvingTools.SolvingToolset.RunSolver` | src/decisionbrain/core/workspace_tools.py:1384-1533 | Running the solver is the RunSolver step. |
| `SolvingTools.SolvingToolset.SubmitSolvingOutcome` | src/decisionbrain/core/workspace_tools.py:1703-1747 | Submission is accepted exactly when message and result meet their contracts and all workspace checks pass, and is the Submit step. |
| `CheckerReceipts.ReviewRulesProtectEvidence` | src/decisionbrain/core/workspace_tools.py:376-492 | During review no command can change checker, input, solution, result or receipt. |
| `CheckerReceipts.CheckerKeeps` | src/decisionbrain/core/workspace_tools.py:1160-1266 | After a checker run, however it went, a receipt on disk is about this run and the files it judged. |
| `CheckerReceipts.ReceiptAlwaysCurrent` | src/decisionbrain/core/workspace_tools.py:1160-1338 | After any sequence of reviewer tool calls a receipt on disk has the digests of the four current files, and checker, input and solution are what they were before that check was launched. |
| `CheckerReceipts.HonestCheckIsBound` | src/decisionbrain/core/workspace_tools.py:1160-1338 | A check that ends in time and touches nothing else gets a receipt exactly when it left a valid result and there was an input and a candidate. |
| `CheckerReceipts.FailedCheckIsNotBound` | src/decisionbrain/core/workspace_tools.py:1160-1266 | Any other check leaves no receipt. |
| `ReviewTools.ReviewToolset.Shell` | src/decisionbrain/core/workspace_tools.py:1917-2158 | A reviewer's shell command is the RunShell step of the review session. |
| `ReviewTools.ReviewToolset.RunFeasibilityChecker` | src/decisionbrain/core/workspace_tools.py:1160-1266 | Running the checker is the RunChecker step. |
| `Handoff.PrepareFeasibilityHandoff` | src/decisionbrain/core/workspace_tools.py:690-733 | The copying loop leaves the workspace the reference says and names exactly the baselines that existed. |
| `Handoff.BaselineSurvivesReset` | src/decisionbrain/core/workspace_tools.py:690-751 | Every rejected file copied for the repair survives the reset that deletes its original. |
| `Handoff.RewoundRest` | src/decisionbrain/core/workspace_tools.py:660-751 | Apart from the copies, exactly the files to be redone and the superseded attempts are gone. |
| `Handoff.BaselinesByStage` | src/decisionbrain/core/workspace_tools.py:690-733 | Which rejected files the formulator, algorithm design and solving find in their attempt directory, by name. |
| `Handoff.ResetFollowsTheStages` | src/decisionbrain/core/workspace_tools.py:495-584 | A stage clears exactly what it or a later stage makes, except that the formulation outlives a return to contract or design. |
| `Handoff.OnlyThisAttemptStays` | src/decisionbrain/core/workspace_tools.py:660-687 | Of all handoff directories only that of the current attempt stays. |
| `Handoff.PreparedNames` | src/decisionbrain/core/workspace_tools.py:690-733 | A baseline is reported exactly when its source existed. |
| `WorkspaceRuns.PreparedForRepair` | src/decisionbrain/core/stage_flow.py:112-195 | In every reachable state the stage entered for repair starts in its rewound workspace with the review history. |
| `WorkspaceRuns.RepairStartsFromRejected` | src/decisionbrain/core/stage_flow.py:112-195 | So the rejected candidate is in the attempt directory and no candidate, receipt or check is in place. |
| `SolverTrace.ParseTrace` | src/decisionbrain/core/workspace_tools.py:164-208 | Solver, timeout and still running processes are those the trace says: running exactly when no exit follows the last start of the solver. |
| `SolverTrace.HasTimeoutAncestor` | src/decisionbrain/core/workspace_tools.py:211-219 | Ends on every parent map, cyclic ones included, and is true exactly when some k >= 1 parent steps reach a timeout process. |
| `SolverTrace.AnyTimeoutAbove` | src/decisionbrain/core/workspace_tools.py:235-238 | A timeout was observed exactly when a signalled solver process has a timeout process above it. |
| `CircuitBreakers.CircuitBreaker.Observe` | src/decisionbrain/benchmark/execution.py:556-576 | Observing an evaluation moves the breaker to the state of the longer event log. |
| `CircuitBreakers.CircuitBreaker.RaiseAlarm` | src/decisionbrain/benchmark/execution.py:578-583 | So does a resource alarm raised in the middle of a task. |
| `CircuitBreakers.BreakerMeaning` | src/decisionbrain/benchmark/execution.py:544-583 | Before a trip the counter is the trailing run of network failures; the breaker trips at the first resource event or first run of the threshold length, and kind and reason are those of that first trip. |
| `CircuitBreakers.TripIsFinal` | src/decisionbrain/benchmark/execution.py:544-583 | Nothing changes a tripped breaker. |
| `TaskObservations.ExhaustionTrips` | src/decisionbrain/benchmark/execution.py:556-583 | A shown task that exhausted resources trips a breaker that watches for it. |
| `TaskObservations.FailuresTrip` | src/decisionbrain/benchmark/execution.py:556-583 | As many shown failures as the threshold trip it when nothing but failures was shown. |
| `TaskObservations.StaysClosed` | src/decisionbrain/benchmark/execution.py:556-583 | It stays closed when fewer tasks fail than the threshold and watched resources hold. |
| `Scheduler.CpuWithinBudget` | src/decisionbrain/benchmark/execution.py:1201 | At every moment of every run at most `jobs` tasks are active and their CPU shares fit the budget. |
| `Scheduler.NothingStartsAfterTrip` | src/decisionbrain/benchmark/execution.py:1248-1252 | No task starts after a trip. |
| `Scheduler.CountedOnce` | src/decisionbrain/benchmark/execution.py:1261-1264 | As many indices as entries means that no task is completed twice. |
| `Scheduler.SortedReport` | src/decisionbrain/benchmark/execution.py:1282 | Sorting completed tasks that cover all indices lists every evaluation once, in input order. |
| `Scheduler.StartKeeps` | src/decisionbrain/benchmark/execution.py:1248-1252 | Starting the next task keeps started tasks exactly 0..next_index, split disjointly into active, completed and cancelled. |
| `Scheduler.CollectKeeps` | src/decisionbrain/benchmark/execution.py:1261-1264 | Collecting a finished task keeps the split. |
| `Scheduler.CancelKeeps` | src/decisionbrain/benchmark/execution.py:1272-1276 | Cancelling an active task after a trip keeps the split. |
| `Scheduler.BenchmarkRun.ScheduleAvailable` | src/decisionbrain/benchmark/execution.py:1248-1252 | Scheduling stops exactly at a trip, at the last task or at `jobs` active tasks. |
| `Scheduler.BenchmarkRun.End` | src/decisionbrain/benchmark/execution.py:1227-1229 | A task that ends shows the breaker its own evaluation. |
| `Scheduler.BenchmarkRun.Wait` | src/decisionbrain/benchmark/execution.py:1256-1262 | Whatever tasks end in whatever order and whatever alarms are raised, waiting returns ended tasks or a trip and keeps the ledger sound. Meanwhile the breaker is shown each of them once and nobody else. |
| `Scheduler.BenchmarkRun.Collect` | src/decisionbrain/benchmark/execution.py:1261-1264 | All ended tasks move from active to completed. |
| `Scheduler.BenchmarkRun.CancelActive` | src/decisionbrain/benchmark/execution.py:1265-1276 | After a trip nothing stays active. |
| `Scheduler.BenchmarkRun.Round` | src/decisionbrain/benchmark/execution.py:1256-1277 | One turn of the loop makes progress or ends the run. |
| `Scheduler.BenchmarkRun.Execute` | src/decisionbrain/benchmark/execution.py:1244-1282 | The whole run ends, with the report in input order, and an untripped run reports one evaluation per task. Whether it trips is decided by the tasks: always on a watched exhaustion and on enough failures alone, never below both. With one job and no alarms the report ends with the first task that trips. |
| `ArtifactIndexes.InsertSorted` | src/decisionbrain/run_storage/artifacts.py:114 | Inserting an entry for a new path keeps the index strictly sorted by path. |
| `ArtifactIndexes.CodePointOrder` | src/decisionbrain/run_storage/artifacts.py:114 | Paths are ordered by the first character in which they differ, and a prefix comes first. |
| `ArtifactIndexes.SortOfSorted` | src/decisionbrain/run_storage/artifacts.py:114 | Sorting what is already in order changes nothing. |
| `ArtifactIndexes.UpdatedKeeps` | src/decisionbrain/run_storage/artifacts.py:110-114 | Filtering by id, appending and sorting replaces the entry of one path and keeps order, unique paths and unique ids. |
| `Artifacts.EntriesAgree` | src/decisionbrain/run_storage/artifacts.py:98-109 | In a consistent store every index entry has the size and digest of its file. |
| `Artifacts.WriteKeepsShape` | src/decisionbrain/run_storage/artifacts.py:79-128 | Order and unique paths and ids survive every write, whatever faults strike. |
| `Artifacts.WriteKeepsAgreement` | src/decisionbrain/run_storage/artifacts.py:115-127 | Exactly when a write leaves index and contents in agreement: both or neither landed, or the content was there already, or it landed where nothing is indexed. |
| `Artifacts.OverwriteLosesAgreement` | src/decisionbrain/run_storage/artifacts.py:115-116 | The exception is met: overwriting an indexed artifact whose directory sync raises leaves an outdated entry. |
| `Artifacts.WrittenIsStored` | src/decisionbrain/run_storage/artifacts.py:79-128 | A successful write stores and describes its content, keeps the id of an existing entry, and touches no other path. |
| `Artifacts.WriteOutcomes` | src/decisionbrain/run_storage/artifacts.py:79-128 | A write is refused, fails or succeeds exactly as path, existing files and faults say, and a new entry has the given description and the fresh id. |
| `Artifacts.RunsStayConsistent` | src/decisionbrain/run_storage/artifacts.py:79-128 | Any run of writes under such faults keeps the store consistent. |
| `Artifacts.WrittenOnceStays` | src/decisionbrain/run_storage/artifacts.py:90-93 | What no later write may overwrite keeps its content and entry through any run, whatever faults strike. |
| `Artifacts.ArtifactStore.Put` | src/decisionbrain/run_storage/artifacts.py:79-128 | Writing file and index in place, with rollback, is the function Write. |
| `RevisionNames.NumberedInjective` | src/decisionbrain/runtime/agent_runtime.py:744-749 | Different revision numbers give different names. |
| `RevisionNames.TakenBoundsTries` | src/decisionbrain/runtime/agent_runtime.py:717-731 | Pigeonhole: n blocked revisions need n taken names. |
| `ArtifactRevisions.RevisionsAreValid` | src/decisionbrain/runtime/agent_runtime.py:744-749 | A later revision is never the name of the index file. |
| `ArtifactRevisions.RevisionNumberGoesBeforeExtensions` | src/decisionbrain/runtime/agent_runtime.py:743-749 | The number goes behind the name and before all its extensions; leading dots start none. |
| `ArtifactRevisions.RevisionNumberAfterFinalDot` | src/decisionbrain/runtime/agent_runtime.py:743-749 | Behind a final dot it goes to the end. |
| `NameParts.NameHasParts` | src/decisionbrain/runtime/agent_runtime.py:743-749 | Every other name has these parts. |
| `ArtifactRevisions.StoreArtifact` | src/decisionbrain/runtime/agent_runtime.py:713-731 | The revision loop ends and performs one write at the first free revision, never ending in a conflict. |
| `ArtifactRevisions.FreePathIsKept` | src/decisionbrain/runtime/agent_runtime.py:713-731 | The draft's own path is used exactly when it is free. |
| `ArtifactRevisions.EarlierArtifactsStay` | src/decisionbrain/runtime/agent_runtime.py:713-731 | That write has a fresh path and leaves every earlier artifact unchanged. |
| `InputWorkspaces.InputWorkspace.AvailableDestination` | src/decisionbrain/run_storage/input_workspace.py:163-173 | The naming loop ends at the first free numbered name. |
| `InputWorkspaces.InputWorkspace.AddBytes` | src/decisionbrain/run_storage/input_workspace.py:141-146 | An upload is stored under the first free variant of its base name and nothing else changes. |
| `InputWorkspaces.UploadNumberGoesBeforeExtension` | src/decisionbrain/run_storage/input_workspace.py:163-173 | A taken upload name gets the first free number, before its last extension. |
| `NameParts.StemOfParts` | src/decisionbrain/run_storage/input_workspace.py:163-173 | Only the last extension counts, and none that is empty or the whole name. |
| `InputWorkspaces.FinalNameOf` | src/decisionbrain/run_storage/input_workspace.py:141-146 | An upload is named by what follows the last `/`. |
| `InputWorkspaces.EmptyComponentsIgnored` | src/decisionbrain/run_storage/input_workspace.py:141-146 | A trailing `/` or `/.` does not count, and without a name it is `uploaded`. |
| `InputWorkspaces.UploadStaysInside` | src/decisionbrain/run_storage/input_workspace.py:141-146 | Whatever an upload is called, it is stored directly in the data directory. |
| `InputWorkspaces.FreeNameIsKept` | src/decisionbrain/run_storage/input_workspace.py:163-173 | An upload never lands on an existing file and keeps its name exactly when that is free. |
| `EventLog.ReadEvents` | src/decisionbrain/run_storage/repository.py:300-336 | The reading loop computes ReadContent, early exits included. |
| `LogContents.LinesOfContent` | src/decisionbrain/run_storage/repository.py:312 | The lines put together are the content, cut exactly behind every `\n`, `\r` and `\r\n`. |
| `LogContents.LinesAreDetermined` | src/decisionbrain/run_storage/repository.py:312 | There is only one such way to cut it. |
| `LogContents.ContentReadMeans` | src/decisionbrain/run_storage/repository.py:300-336 | A log reads as these events exactly when every line has text and decodes to its event with the right number and run, and at most one cut-off last line is tolerated. |
| `LogContents.GapIsCorrupt` | src/decisionbrain/run_storage/repository.py:324-334 | A gap in the numbers or an event of another run is corrupt for either reader. |
| `EventLog.TruncationReadsPrefix` | src/decisionbrain/run_storage/repository.py:300-336 | Any byte truncation of a log, read tolerantly, yields exactly the events complete in it; a strict reader agrees exactly when no encoding is cut through. |
| `EventLog.WholeLogReadsBack` | src/decisionbrain/run_storage/repository.py:300-336 | An uncut log reads back whole. |
| `EventLog.EventFile.AppendEvent` | src/decisionbrain/run_storage/repository.py:270-298 | Appending in place, with a possibly short write, is the function Append. |
| `LogContents.AppendOutcomes` | src/decisionbrain/run_storage/repository.py:276-298 | On any content that reads strictly an append is refused, torn or complete as number and written bytes say. |
| `LogContents.AppendToUnreadable` | src/decisionbrain/run_storage/repository.py:276-298 | On any other content it is refused. |
| `EventLog.AppendExtendsLog` | src/decisionbrain/run_storage/repository.py:276-298 | On an intact log an event is refused exactly when its number is not the next one, and otherwise the log is extended or cut within the new line. |
| `EventLog.TornAppendStillReads` | src/decisionbrain/run_storage/repository.py:285-292 | A short write costs no earlier event, and not even the new one when only its newline is missing. |
| `EventLog.AppendAfterTruncation` | src/decisionbrain/run_storage/repository.py:276-298 | Appending to a log that lost its last bytes is refused exactly when an encoding was cut through; otherwise it is accepted, and reads back if and only if what was left is empty or ends with a newline. |
| `EventLog.LostNewlineCorrupts` | src/decisionbrain/run_storage/repository.py:276-298 | The exception is met: one event without its newline reads as a log, and the next event corrupts it. |
| `EventPublishing.HandedCountUpIff` | src/decisionbrain/events/publisher.py:47-88 | The numbers handed to the sinks count up by one per dispatched event if and only if no delivery but the last was ended by a second cancellation. |
| `EventPublishing.NumbersCountUp` | src/decisionbrain/events/publisher.py:47-88 | Under single cancellations and any sink failures the k-th dispatched event has the k-th number, and success reports that number or the cancellation. |
| `EventPublishing.NextNumber` | src/decisionbrain/events/publisher.py:72-87 | The next number follows the last one handed out, unless that delivery failed. |
| `EventPublishing.NothingAfterFailure` | src/decisionbrain/events/publisher.py:50-51 | Nothing is dispatched after a failed delivery. |
| `EventPublishing.UndispatchedResult` | src/decisionbrain/events/publisher.py:50-69 | What is not dispatched changes nothing, and is refused as closed exactly behind a failed delivery. |
| `EventPublishing.CutShortReusesNumber` | src/decisionbrain/events/publisher.py:72-88 | A delivery that is cut short leaves its number to the next one. |
| `EventPublishing.CheckNeverFires` | src/decisionbrain/run_storage/repository.py:276-282 | Hence the sequence check of a log among the sinks never fires under single cancellations. |
| `EventPublishing.CheckFiresIff` | src/decisionbrain/run_storage/repository.py:276-282 | It fires for an open publisher exactly when an earlier delivery was logged and then ended by a second cancellation. |
| `EventPublishing.SecondCancellationDesynchronises` | src/decisionbrain/events/publisher.py:72-82 | The exception is met: after one such delivery the next event is refused. |
| `EventPublishing.FileAcceptsNext` | src/decisionbrain/run_storage/repository.py:276-282 | The file that holds what was published refuses the next event exactly when its number is out of step. |
| `EventPublishing.EventPublisher.Send` | src/decisionbrain/events/publisher.py:47-88 | Publishing one request, from any initial number, updates number, failure flag and log as the functions Publish and Serve, and hands the sinks exactly the next number. |
| `ToolCalls.MergeStreamToolCalls` | src/decisionbrain/infrastructure/llm_client.py:195-214 | The merging loop returns the merged dictionary in ascending order of its indices. |
| `ToolCalls.OrderUnique` | src/decisionbrain/infrastructure/llm_client.py:214 | That order determines the list. |
| `ToolCalls.MergedIsDescribed` | src/decisionbrain/infrastructure/llm_client.py:195-213 | For every interleaving and every index, the merged call is the one its own fragments describe: last given id, first type, concatenated name and arguments, with nulls told apart from absent fields. |
| `ToolCalls.OfMeans` | src/decisionbrain/infrastructure/llm_client.py:199 | A fragment without an index belongs to call 0. |
| `ToolCalls.KindMeans` | src/decisionbrain/infrastructure/llm_client.py:199-205 | The kind is the first fragment's: `function` when it is missing, and null when it is null. |
| `ToolCalls.LastNamedId` | src/decisionbrain/infrastructure/llm_client.py:206-208 | The identifier is the last nonempty one. |
| `ToolCalls.UnnamedId` | src/decisionbrain/infrastructure/llm_client.py:199-208 | Without one it is what the first fragment has. |
| `ToolCalls.InterleavingsMergeBack` | src/decisionbrain/infrastructure/llm_client.py:195-214 | Calls cut into fragments anywhere and interleaved in any per-index order merge back to exactly those calls. |
| `LlmStream.RetryLlm` | src/decisionbrain/infrastructure/llm_client.py:165-192 | The consumer sees exactly the chunks and the end of the decisive attempt: the first that emitted, completed or failed otherwise, or the last one allowed. |
| `LlmStream.StreamIsDetermined` | src/decisionbrain/infrastructure/llm_client.py:165-192 | There is only one such stream. |
| `LlmStream.CompletesIff` | src/decisionbrain/infrastructure/llm_client.py:165-192 | A stream completes exactly when an attempt does after silent network failures only, within `max_attempts`, and holds the chunks of that attempt alone. |
| `LlmStream.CollectFragments` | src/decisionbrain/infrastructure/llm_client.py:340-381 | The consuming loop collects the fragments of all deltas without usage. |
| `LlmStream.CollectedIsAll` | src/decisionbrain/infrastructure/llm_client.py:347-349 | No fragment is lost if and only if deltas that carry usage carry no fragment. |
| `LlmStream.UsageLosesFragment` | src/decisionbrain/infrastructure/llm_client.py:347-349 | The exception is met: one delta with usage loses its fragment. |
| `LlmStream.StreamToolCalls` | src/decisionbrain/infrastructure/llm_client.py:304-415 | Retrying, collecting and merging together answer with the calls of the completed attempt, or raise. |
| `LlmStream.CallsComeBackWhole` | src/decisionbrain/infrastructure/llm_client.py:156-214 | Calls spelled out by the completing attempt, cut and interleaved in any way, come back whole. |

## Left out

- The tokeniser and object builder of the JSON library are not part of this model: documents enter as event sequences derived from trees, and the builder fills one key per container.
- IntakeDataTools.DataGet: resolving the file name, and the text of errors; rendering is a parameter. The same holds for DataSlice and DataKeys.
- IntakeDataTools.SlicePagesAddUp: adding up is stated for the queries; a page whose rendering is too long is an error instead.
- Duplicate keys in rebuilt values follow dictionary assignment; the equality with RFC 6901 is claimed for unique keys only.
- Path resolution, symbolic links and directories: workspace files are a map from names to contents, and the fixed names are constructors.
- Recursive access rules in the command frame: the source's snapshot and hiding skip them, and so do the frame results.
- Launching processes, tracing them, signals, CPU limits, clocks and I/O errors of the workspace tools; a command is a function of the visible files plus a timeout flag.
- SolverTrace.ParseTrace: matching of trace lines is abstracted to line kinds, and which signal ended a solver is not computed.
- The import guard of the solver, and the self-check variant of the access policy.
- Resuming a run from workspace files, and starting a run at a later stage.
- Schema validation, prompts, message building, rendering and language-model calls; a repair instruction is modelled by whether it is active and for which stage.
- The wrapper that retries a reviewer's invalid output, and text normalisation of diagnoses.
- WorkspaceRuns.SolvingStartsFresh: what an aborted stage leaves behind is arbitrary, and scratch directories are not files of the model.
- Run status in memory against the persisted record, run snapshots, and the event bus sinks besides the log.
- Artifact path normalisation and the creation of parent directories; symbolic links among artifacts.
- Artifacts.WriteKeepsAgreement: a rollback that fails is one fault, without a partially written file, because each file is replaced atomically.
- Timing, scoring, package policies, manifests, the command line, the API and dataset scripts.
- Scheduler.BenchmarkRun.Wait: a task that finishes between the trip and its cancellation counts as cancelled, since the source discards its result too.
- EventPublishing.EventPublisher.Send: an event is its number; the other sinks are one outcome of the delivery.
- ToolCalls.MergeStreamToolCalls: an explicit null index, on which the source's sort can raise.
- LlmStream.StreamToolCalls: content and reasoning text, usage metrics and debug events of the response.
- SolvingTools.SolvingToolset.SubmitSolvingOutcome: validation of message and result is one flag.
- InputWorkspaces.InputWorkspace.AvailableDestination: a trailing dot belongs to the stem, as in Python before 3.14.
