# A verified model of the xtrax campaign loop and its release audits

xtrax runs *campaigns*: an agent proposes candidate programs one after another, each candidate is
checked, run, scored and attested, and a *ratchet* moves a git ref (the best-so-far ref) only to a
candidate that improves on it. Around that loop stand scripts that keep the repository releasable.
This project models the parts with real state and real promises, and proves those promises for every
input, every environment and every run.

`dafny verify dfyconfig.toml` checks everything. The modules, in reading order:

- **Outcomes, GitStore.** Exceptions as values, told apart by type as the source's `except` clauses do.
  An append-only store of commits, one ref, a worktree; `Repo` is the mutable object the code works on.
- **RefRace.** Any number of controllers on one ref, interleaved at every point where another process
  can run, and free to crash anywhere. No installed commit is ever lost.
- **Text, Parentage, CandidatePass, PassLaws.** One candidate pass. `PassEnv` holds the answer of every
  gate and tool and whether each git command that writes fails, so a theorem about all `PassEnv` values is
  a theorem about whatever those answer, raising included. `Pass` is the value the pass comes to, with a
  trace of its effects; `RunOneCandidatePass` is the imperative program, proved to do exactly that.
- **PassStages.** The same pass as a flat list of thirty-four stages, each with a condition on the inputs
  alone; the pass raises what the first refusing stage raises, and every field of a completed pass's result
  is read off the inputs.
- **IterationLoop, LoopLaws, LoopInputs, LoopErasure.** The multi-iteration loop as a class whose fields are the
  source's loop variables; its invariants over every run; what a run reports, on its clock, its candidates and
  their sources; and the theorem that failed candidates can be deleted from a run without changing what it
  decides.
- **Campaign, FailureLabels.** Opening a campaign, running the loop inside it, concluding it on every way
  out, and what an exception that ends it is labelled.
- **Changelog, StripLaws, ChangelogLaws, ChangelogConservation, ChangelogLines.** Cutting a release section from
  fragments: what stripping leaves of a text, round trip, refusal of a second cut, where every block ends up, and
  that every line that is not blank does. A text is its list of lines.
- **DriftSplice.** The position-based rewrite of sub-flow references, proved to be a structural map over
  the document.
- **GuardedImports.** The guard-stack visitor over a syntax tree, against a declarative account by paths.
- **Reachability, OrphanRecipes.** Two worklists proved to compute reachability, and the gate built on one.
- **ReleaseVerdict, ReleaseLaws.** De-duplicated gate runs and the READY verdict, characterised exactly.

## What the proofs brought to light

Where the code and its comments disagree, the model follows the code.

- The note at `controller/main_loop.py:1115-1125` calls the two separate ref reads of the accept branch a
  race. `NoLostUpdate` shows that it can never be installed: a commit only reaches the ref if the ref did not
  move between its reads, so its tree is built on exactly the commit it overwrites.
- `controller/loop_run.py:160-162` says the caught exception types identify dispatch failures. The `except`
  clause works by type: every `ValueError` counts, from the controller's own refusals (a failing `git`
  command among them) to a source file that is not UTF-8. `LabelPastDispatch` gives the exact condition for a pass:
  with the dispatch made and returned, it is still labelled `partial_failure` if and only if a later stage is the
  first to refuse and refuses with one of the three types. `LabelOfRaisedRun` gives it for a whole call of the
  loop: its own limits are bad, or its watchdog raises one of the three types, or, with a watchdog that starts and
  stops, some candidate's pass or source comparison does. Three families of campaigns are blamed on a dispatch
  that did not fail: `NoOutputPathsIsBlamedOnDispatch`, `UndecodableSourceIsBlamedOnDispatch` and
  `BadFailureLimitIsBlamedOnDispatch`, the last with no dispatch at all: a failure limit below 1 is only refused
  inside the loop (`controller/multi_iteration_loop.py:501-503`), after the campaign has been created.
- An exception from stopping the watchdog replaces whatever the candidates came to and alone decides the label
  (`WatchdogStopDecides`).
- `campaign_conclude` is attempted exactly once for a created campaign unless the creation event handler
  raises (it sits outside the guarded region) or the loop is interrupted by something that is not an
  `Exception` (`ConcludedExactlyOnce`); `ConcludedOnInputs` says from what the campaign is given when that is.
- The comment at `controller/loop_run.py:743` says that running out of candidates with no completed pass is
  never a success. Running out of time is one: by `EmptySuccess`, a run without a completed pass is concluded as
  a success if and only if its watchdog starts and stops, the time budget is spent before some candidate, and every
  candidate before that one is a failed run which the loop survives (not confirmatory, streak below its limit,
  reset to the ref not failing).
  `EmptySuccessHappens` is the family whose budget is spent before the first candidate.
- The fragment check looks for headings before stripping, so an indented heading passes it and becomes a
  heading once stripped (`IndentedHeadingSlipsThrough`). `RoundTripOfFiles` proves that the
  round trip of the new section fails exactly when a fragment or an existing body opens that way, and
  `IndentedHeadingBreaksRelease` cuts such a release from every such file.
- The drift rewrite tests for the prefixed form before it tests for the plugin's own names
  (`scripts/audit_drift_check.py:231-234`). With plugin `p` and templates `a` and `p_a`, a reference to `p_a` is left
  alone (`ShadowedNameIsLeftAlone`). Every reference to a template of the plugin's own is rewritten if and only if no
  name of the plugin is the prefixed form of another (`OwnedAreRewrittenIff`).
- The release audit raises `KeyError` in a quick run exactly when an automated check's recipe is the gate
  of a backlog item the quick run skipped (`KeyErrorIff`).
- A check that shares its recipe with a backlog item or an earlier check is judged by *their* blocking
  flag, so READY can hide a failing blocking check; `ReadyMeansPassedIff` gives the exact condition on the
  configuration.
- The comment at `scripts/audit_release_readiness.py:487-489` says a quick run cannot be READY. `ReadyIffConfig`
  covers quick and full runs alike: a quick run is READY if and only if nothing blocking was left out or skipped and
  everything blocking that ran passed. `CouldBeReadyIff` says when that is possible at all, whatever the
  commands do. `QuickIsNotReady` is the case the comment has in mind; with nothing slow a quick run gives the
  full run's verdict (`QuickWithNothingSlowIsFull`).
- Backlog item 1462 is exempt only as a backlog row: the row may fail, but may not be skipped. Its failing gate
  still blocks when the gate's shared record counts as blocking, as it does when 1462 itself is blocking and the
  first item with that gate (`ExemptItemStillBlocks`). `SurvivesFailureIff` says for every recipe whether a READY
  audit survives its failure.

## Model

| member | source | states |
|---|---|---|
| `RefRace.NoLostUpdate` | controller/main_loop.py:1094-1140 | under every interleaving of any number of controllers and crashes, the ref's values form one unbroken parent chain, and each installed tree is built on the very commit it overwrote |
| `RefRace.OneFirstAccept` | controller/main_loop.py:1094-1140 | of racing first accepts at most one wins, and only if the ref was absent |
| `RefRace.NeverReinstalled` | src/xtrax/loop/ratchet_crash_atomicity.py:116-142 | the ref never returns to a value it has left, so the compare-and-swap cannot be fooled |
| `RefRace.NextKeepsInv` | controller/main_loop.py:1094-1140 | every atomic step of any controller, its own crash included, keeps the protocol's invariant |
| `GitStore.Repo.ReadBestSoFar` | src/xtrax/loop/ratchet_crash_atomicity.py:145-158 | returns the ref's value, absent or not |
| `GitStore.Repo.CreatePendingCommit` | src/xtrax/loop/ratchet_crash_atomicity.py:91-113 | adds one commit with the given tree and parent, or raises and changes nothing |
| `GitStore.Repo.AdvanceBestSoFar` | src/xtrax/loop/ratchet_crash_atomicity.py:116-142 | moves the ref only from the expected old value; otherwise raises and changes nothing |
| `GitStore.Repo.ResetWorktree` | src/xtrax/loop/ratchet_crash_atomicity.py:161-188 | puts the ref's tree in the worktree; raises, changing nothing, when there is no ref |
| `Text.StripSpec` | controller/lineage_interim.py:110-124 | a stripped id is all of the id but the blanks at its ends, and has none of these |
| `Parentage.DistinctRealParentsSpec` | controller/lineage_interim.py:110-124 | the listed parents without blanks, none missing and none twice |
| `Parentage.CollectDistinctRealParents` | controller/lineage_interim.py:110-124 | the loop computes that list, in first-seen order |
| `Parentage.ResolutionIsFaithful` | controller/lineage_interim.py:132-152 | a `derived_from` value is returned exactly when every real parent is that value; otherwise two different real parents exist |
| `CandidatePass.RunProduce` | controller/main_loop.py:883-949 | dispatch, gates, parent resolution and run, stopping at the first refusal with exactly the events before it |
| `CandidatePass.RunAppraise` | controller/main_loop.py:951-1022 | sidecar check, scoring, attestation and envelope, stopping at the first refusal |
| `CandidatePass.RunRatchet` | controller/main_loop.py:1027-1073 | the ratchet decision, including the unpaired-fitness and prior-lineage refusals |
| `CandidatePass.RunEvaluate` | controller/main_loop.py:883-1090 | everything before the lineage decision, which reads the ref and writes nothing; `PassStages.ResultOnInputs` says on the inputs what it comes to |
| `CandidatePass.RunAccept` | controller/main_loop.py:1094-1140 | the accept branch: commit first, then compare-and-swap against the one value read |
| `CandidatePass.RunReject` | controller/main_loop.py:548-562 | reset to the ref whenever a ref or a best fitness exists |
| `CandidatePass.RunConclude` | controller/main_loop.py:1155-1232 | evidence is advisory, timing may abort after the ref moved, and the probe record repeats the verdict |
| `CandidatePass.RunOneCandidatePass` | controller/main_loop.py:883-1232 | the whole pass ends in exactly the outcome, repository and trace of its specification |
| `PassLaws.AdvanceIsEarned` | controller/main_loop.py:883-1140 | a ref move is preceded in its own pass, in order, by every gate, one parent, a successful run, score, attestation, envelope and a non-blocking stats verdict, and happens once |
| `PassLaws.PassMovesRefByOne` | controller/main_loop.py:1094-1147 | a pass leaves the ref alone or moves it to one new child of its old value carrying the candidate's tree; the store only grows |
| `PassLaws.VerdictsAgree` | controller/main_loop.py:294-350 | the verdict that moved the lineage, the probe record's and the result's own agree; held implies accepted; a completed pass has exit code 0; a rejected one leaves the ref's tree in the worktree |
| `PassLaws.FailedRunIsInert` | controller/main_loop.py:938-949 | a pass ends in a run failure exactly when the run failed, before scoring, with ref and store untouched and a non-zero exit code |
| `PassLaws.AcceptRefinesRace` | controller/main_loop.py:1094-1140 | the accept branch does to the store what the race model's steps do when taken back to back |
| `PassStages.PassRaisesFirstRefusal` | controller/main_loop.py:883-1232 | a pass raises exactly what its first refusing stage raises, each stage's condition being read off the inputs alone, and completes exactly when none refuses |
| `PassStages.ConsistencyErrorsIff` | controller/main_loop.py:1027-1102 | exactly when each of the pass's own consistency errors is raised |
| `PassStages.DispatchedIff` | controller/main_loop.py:877-890 | a trace shows a dispatch exactly when it was made and returned |
| `PassStages.ResultOnInputs` | controller/main_loop.py:1027-1092 | every field of a completed pass's result, on the inputs: handoff, run and score are what was answered, `derived_from` is the one parent listed, an improvement is a fresh start or the ratchet's word, and only in confirmation and sequential campaigns does a failing stats battery block, and fewer than 3 seeds or 29 trials |
| `PassStages.VerdictOnInputs` | controller/main_loop.py:315-350 | exactly when a completed pass is accepted, and when it may be reported as held, on the inputs |
| `PassStages.TraceOfRefusal` | controller/main_loop.py:883-1147 | what had happened when a pass raised: the pipeline's events up to the refusing stage and nothing written, or, past it, the verdict, the ref where it was, and a commit no ref holds if only the swap failed |
| `PassLaws.ProbeWrittenIff` | controller/main_loop.py:1155-1232 | a completed pass writes its probe record exactly when records are kept and writing does not fail |
| `IterationLoop.LoopVars.SkipFailedCandidate` | controller/multi_iteration_loop.py:570-613 | a failed run is recorded, counted and reset; the loop halts when the streak reaches its limit |
| `IterationLoop.LoopVars.CompleteCandidate` | controller/multi_iteration_loop.py:615-630 | a completed pass clears the streak, updates best fitness on acceptance and extends the diversity window |
| `IterationLoop.LoopVars.RunRound` | controller/multi_iteration_loop.py:518-630 | one iteration changes the loop's variables and the repository exactly as specified |
| `IterationLoop.RunMultiIterationLoop` | controller/multi_iteration_loop.py:498-649 | the whole loop, its validation, for-else and watchdog bracket, ends in exactly the specified outcome, repository and trace |
| `LoopLaws.RoundKeepsInv` | controller/multi_iteration_loop.py:518-630 | every iteration, whatever its environment does, keeps the counting, ledger, lineage and soundness invariants together |
| `LoopLaws.Terminations` | controller/multi_iteration_loop.py:518-636 | the four termination reasons, each characterised by the attempt history; completed plus failed equals attempts; the first halting streak is the last thing that happens |
| `LoopLaws.LineageOfRun` | controller/multi_iteration_loop.py:515-618 | best fitness is that of the last accepted candidate; the ref stands where it stood or its tree is the starting base tree with only the target path replaced, by the last accepted candidate's content or, in a run that raised, by that of the candidate whose pass raised; without the override, no best fitness means no ref and conversely |
| `LoopLaws.AdvancesMatchAcceptance` | controller/multi_iteration_loop.py:317-330 | ref moves form one chain; a returned run made exactly `accepted_count` of them, at least `held_count`, and a run that raised at most one more |
| `LoopLaws.AdvancesAreEarned` | controller/main_loop.py:883-1140 | in the trace of every run, each ref move ends sixteen consecutive events of its own pass: the whole pipeline, a non-blocking stats verdict and its commit |
| `LoopLaws.ConsistencyErrorsUnreachable` | controller/multi_iteration_loop.py:515-618 | no run of the loop raises the unpaired-fitness or missing-ref errors, nor, with a bootstrap commit, the missing-parent or missing-base ones |
| `LoopLaws.RecordsOfRun` | controller/multi_iteration_loop.py:570-583 | completed passes exited 0, failure records name failed attempts in order with non-zero codes, and confirmatory runs have none |
| `LoopInputs.BudgetExhaustedIff` | controller/multi_iteration_loop.py:518-524 | an entered run whose watchdog stops ends on its time budget if and only if it is still going at some candidate before which the clock has reached the budget |
| `LoopInputs.AttemptedInTime` | controller/multi_iteration_loop.py:518-524 | every attempted candidate was come to before the budget was spent |
| `LoopInputs.CandidateOnInputs` | controller/multi_iteration_loop.py:526-617 | what one candidate adds to a run's result, on what its pass was given: its result and, if accepted, the best fitness; a failure record with its number, path and exit code; or nothing |
| `LoopInputs.SkippedOnInputs` | controller/multi_iteration_loop.py:570-613 | a skipped candidate shows its pass's first seven events, its probe record if one is written, and a worktree put back to what the ref holds; only a failing reset ends the run |
| `LoopInputs.CountsOnInputs` | controller/multi_iteration_loop.py:317-330 | the completed, accepted and held counts of a returned run are the numbers of its candidates that complete, that improve unblocked, and that also clear the seed floor, each on what its own pass was given |
| `LoopInputs.LeapListedIff` | controller/multi_iteration_loop.py:619-630 | a returned run lists a leap event for a candidate, with which window, if and only if it completed and the window over the sources of the completed candidates is full and holds no structural mutation |
| `LoopInputs.WatchdogIsStopped` | controller/multi_iteration_loop.py:505-641 | a watchdog that was started is asked to stop once, however the run ended; a run that is refused starts none |
| `LoopErasure.FailedCandidatesAreErasable` | controller/multi_iteration_loop.py:570-630 | unless a reset the run attempts fails, deleting every failed candidate leaves the completed passes, store, ref moves, best fitness, structural flags and leap-path windows the same |
| `LoopErasure.ErasedRunEndsTheSame` | controller/multi_iteration_loop.py:631-649 | and the shorter run, under the same watchdog, returns the same reason or raises the same exception |
| `LoopErasure.FailedResetEndsTheRun` | controller/multi_iteration_loop.py:570-613 | a run in which such a reset fails ends there with that exception |
| `Campaign.ConcludedExactlyOnce` | controller/loop_run.py:607-770 | `campaign_conclude` is attempted once, with the earned label, exactly when the campaign was created, its event handler returned and the loop was not interrupted |
| `Campaign.CreatedIff` | controller/loop_run.py:607-658 | a campaign is created, and that is the first thing logged, if and only if its limit is at least 1 and approval, capability probe, completeness gate and creation all return |
| `Campaign.RefusedInOrder` | controller/loop_run.py:607-655 | otherwise nothing is logged, and the first of these to refuse, in that order, decides the outcome |
| `Campaign.ConcludesWhatItCreated` | controller/loop_run.py:365-409 | a conclude call is for the campaign that was created, with the label the loop earned; which event follows it, and when none does |
| `Campaign.OriginalExceptionEscapes` | controller/loop_run.py:365-409 | the loop's own exception escapes even when concluding fails, and what alone can replace it; a loop that returned gives way to the first close-out call that raises |
| `Campaign.PartialFailureOfRun` | controller/loop_run.py:734-751 | a returned run is a partial failure exactly when it ended on a halting streak or attempted every candidate and completed none |
| `Campaign.EmptySuccess` | controller/loop_run.py:741-751 | a run without a completed pass is concluded as a success if and only if, on the inputs, the watchdog starts and stops, the budget is spent before some candidate and all before it are failed runs the loop survives |
| `Campaign.EmptySuccessHappens` | controller/loop_run.py:741-751 | every run with a working watchdog whose budget is spent before its first candidate is such a run |
| `Campaign.ConcludeBestEffort` | controller/loop_run.py:365-409 | swallows a failing conclude call, and says what escapes for every exception with that label |
| `Campaign.RunCampaignLoop` | controller/loop_run.py:607-770 | the campaign program ends in exactly the specified outcome, log and repository; unless the limit, the three gates, the creation and its event handler all let it, the repository is unchanged |
| `FailureLabels.LabelOfPass` | controller/loop_run.py:284-288 | an exception that ends a pass is labelled partial_failure if and only if the first stage to refuse did so with a handoff, timeout or value error |
| `FailureLabels.LabelPastDispatch` | controller/loop_run.py:160-162 | with the dispatch made and returned, the label is still partial_failure if and only if a later stage is the first to refuse and does so with one of the three types |
| `FailureLabels.LabelOfRaisedRun` | controller/loop_run.py:660-726 | a call of the loop raises and is labelled partial_failure if and only if its limits are bad, its watchdog raises one of the three types, or, with a watchdog that starts and stops, one of its candidates got a pass that ends that way or whose source comparison does |
| `FailureLabels.NoOutputPathsIsBlamedOnDispatch` | controller/main_loop.py:979-984 | with no output paths and a working watchdog, every campaign with a candidate that reaches scoring is concluded partial_failure, its dispatch having returned |
| `FailureLabels.UndecodableSourceIsBlamedOnDispatch` | controller/multi_iteration_loop.py:619-622 | so is every such campaign with a completed pass whose source file is not UTF-8 |
| `FailureLabels.BadFailureLimitIsBlamedOnDispatch` | controller/multi_iteration_loop.py:501-503 | and every campaign that opens with a failure limit below 1, without a dispatch |
| `FailureLabels.WatchdogStopDecides` | controller/multi_iteration_loop.py:637-641 | an exception from stopping the watchdog alone decides the label, whatever the candidates came to |
| `FailureLabels.ConcludedOnInputs` | controller/loop_run.py:607-770 | from what the campaign is given: `campaign_conclude` is attempted once or never, and never only when the limit is bad, a gate or the creation or its event handler raises, or the first refusal on the loop's way is an interrupt |
| `Changelog.CollectCategories` | scripts/assemble_changelog.py:141-151 | the category bodies of a section, or the first unknown or repeated category |
| `Changelog.JoinBlocks` | scripts/assemble_changelog.py:155-171 | joins the non-empty blocks; `ChangelogLines.JoinedTightIff` says when two lists stay one |
| `Changelog.LoadFragments` | scripts/assemble_changelog.py:66-117 | every file is valid and becomes one stripped fragment in file order, or nothing is loaded |
| `Changelog.MergeBodies` | scripts/assemble_changelog.py:186-192 | exactly the categories with something to say, each with its existing body and then its fragments in file order |
| `Changelog.RenderSection` | scripts/assemble_changelog.py:198-201 | the section's lines, in category order |
| `Changelog.AssembleChangelog` | scripts/assemble_changelog.py:174-203 | the assembled document, or the first of the six refusals |
| `ChangelogLines.CutIff` | scripts/assemble_changelog.py:174-196 | whether a release is cut, and what refuses it, on the document and the fragments: each refusal exactly when its own condition holds and none before it does |
| `ChangelogLines.CollectedIff` | scripts/assemble_changelog.py:141-151 | a section's bodies are collected if and only if every heading names a category and none comes twice |
| `ChangelogLines.CollectSpec` | scripts/assemble_changelog.py:141-151 | each part's stripped body is then listed under the category its heading names |
| `ChangelogLines.JoinedTightIff` | scripts/assemble_changelog.py:163-171 | a block follows what was joined before with no empty line between if and only if the last paragraph before and the block both open with a bullet, told on their characters; otherwise with one |
| `StripLaws.StripBlockIsStrip` | scripts/assemble_changelog.py:115 | stripping the lines of a text is stripping the text |
| `StripLaws.IsStripBlockIff` | scripts/assemble_changelog.py:115 | a block is a text stripped if and only if it is the text's lines without exactly the blank ones at its ends, the first line less its leading blanks, the last less its trailing ones and the lines between unchanged, character by character |
| `ChangelogLaws.SplitRendered` | scripts/assemble_changelog.py:120-152 | splitting rendered items gives them back if and only if no body has a heading line |
| `ChangelogLaws.RoundTrip` | scripts/assemble_changelog.py:120-203 | splitting the newly cut section recovers exactly the merged map, if and only if no block has a heading line |
| `ChangelogLaws.RoundTripOfFiles` | scripts/assemble_changelog.py:66-203 | from checked files to released text: the map is recovered if and only if no existing body and no fragment opens, once stripped, with a heading line |
| `ChangelogLaws.OnlyTheFirstLine` | scripts/assemble_changelog.py:94-117 | stripping can turn only the first line into a heading |
| `ChangelogLaws.CheckedFragmentIsClean` | scripts/assemble_changelog.py:94-100 | the fragment check is at least as strict as the splitter |
| `ChangelogLaws.ExistingBreaksOnlyByFirstLine` | scripts/assemble_changelog.py:120-152 | an existing body has a heading line if and only if its first line is one |
| `ChangelogLaws.FragmentBreaksOnlyByFirstLine` | scripts/assemble_changelog.py:94-117 | so does a checked fragment |
| `ChangelogLaws.IndentedHeadingSlipsThrough` | scripts/assemble_changelog.py:94-117 | every indented heading passes the check and is a heading once stripped |
| `ChangelogLaws.IndentedHeadingBreaksRelease` | scripts/assemble_changelog.py:94-203 | from every such file a release is cut whose round trip fails |
| `ChangelogLaws.UnreleasedIsEmptied` | scripts/assemble_changelog.py:202-203 | the output's Unreleased section splits to nothing, what precedes it is unchanged, and the version is there |
| `ChangelogLaws.SecondAssemblyRefused` | scripts/assemble_changelog.py:182-196 | a second assembly is refused for the same version, and for any version when no fragments are left |
| `ChangelogConservation.ReleaseConserves` | scripts/assemble_changelog.py:155-203 | in the released document everything before Unreleased and from the next release on is unchanged, with a bare Unreleased section and the release's heading between; every existing body and fragment is one contiguous block, in category order and then file order, none overlapping; every other line of the new section is empty or a heading |
| `ChangelogConservation.FragmentsAreKept` | scripts/assemble_changelog.py:155-203 | in terms of the files: where each fragment is, after its category's existing body and before every later fragment |
| `ChangelogLines.FileLinesAreKept` | scripts/assemble_changelog.py:103-203 | every line of every fragment file that is not blank stands in the released document, in the file's slot and order, less at most blanks at its ends, and unchanged between the first and the last |
| `ChangelogLines.UnreleasedLinesAreKept` | scripts/assemble_changelog.py:120-203 | so does every line under the Unreleased heading, but for category headings and the comments before the first |
| `ChangelogConservation.TextIsThere` | scripts/assemble_changelog.py:186-201 | each block sits whole between the lines of the categories around its own |
| `ChangelogConservation.NothingIsInvented` | scripts/assemble_changelog.py:186-201 | a line of the new section that belongs to no block is empty or a heading |
| `DriftSplice.SortedSpec` | scripts/audit_drift_check.py:160 | sorting keeps exactly the replacements, ordered by start |
| `DriftSplice.AdjacentIsPairwise` | scripts/audit_drift_check.py:161-168 | checking neighbours is equivalent to all spans being disjoint |
| `DriftSplice.Splice` | scripts/audit_drift_check.py:150-174 | succeeds exactly when all spans are valid and disjoint, with every other character kept in order; otherwise which refusal |
| `DriftSplice.CutIsExact` | scripts/audit_drift_check.py:166-174 | cutting a text at its spans loses nothing |
| `DriftSplice.CutFindsTheLayout` | scripts/audit_drift_check.py:166-174 | a text and its spans have one layout |
| `DriftSplice.SpliceIsARewrite` | scripts/audit_drift_check.py:150-174 | splicing a document's own spans gives the document rendered with the new references |
| `DriftSplice.EverySpliceIsOne` | scripts/audit_drift_check.py:150-174 | whatever is spliced successfully was such a document |
| `DriftSplice.SpliceIsReversible` | scripts/audit_drift_check.py:150-174 | splicing the old texts back where the new ones went restores the document |
| `DriftSplice.MovedReads` | scripts/audit_drift_check.py:166-174 | in the rewritten text, the new reference is what stands where its replacement went |
| `DriftSplice.RewritesAreExact` | scripts/audit_drift_check.py:212-258 | one refused entry leaves no rewrite at all; otherwise the replacements are exactly those the entries ask for, both told on the entries and the plugin's names |
| `DriftSplice.DecidedOnNode` | scripts/audit_drift_check.py:215-258 | when an entry is refused, with which error, and when it asks for which replacement: the span of its reference, and the prefixed name inside the same quotes |
| `DriftSplice.RefusedEntryLeavesNoExport` | scripts/audit_drift_check.py:212-260 | one refused entry leaves no export, and the error is that of the first one |
| `DriftSplice.OtherErrors` | scripts/audit_drift_check.py:197-209 | the errors of a document that is no mapping, has no `nodes`, or no sequence there |
| `DriftSplice.KindOfSpec` | scripts/audit_drift_check.py:218-224 | of several scalar `kind` values the last counts |
| `DriftSplice.TemplateOfSpec` | scripts/audit_drift_check.py:218-224 | of several `template` values the last counts, scalar or not |
| `DriftSplice.NodesOfSpec` | scripts/audit_drift_check.py:200-204 | of several `nodes` keys the first counts |
| `DriftSplice.RewrittenIff` | scripts/audit_drift_check.py:225-258 | an entry is rewritten if and only if it is a sub-flow whose reference is one of the plugin's own names, in a supported style, and does not read as the prefixed form of one |
| `DriftSplice.OwnedAreRewrittenIff` | scripts/audit_drift_check.py:231-234 | every such reference is rewritten if and only if no name of the plugin is the prefixed form of another |
| `DriftSplice.ShadowedNameIsLeftAlone` | scripts/audit_drift_check.py:231-234 | a plugin for which that fails, and the reference it leaves alone |
| `DriftSplice.ComputeExpectedExport` | scripts/audit_drift_check.py:177-260 | the loop computes the specified export, or its first error |
| `DriftSplice.ExportIsARewrite` | scripts/audit_drift_check.py:177-260 | an export exists if and only if no entry is refused and the document is a layout whose cells are the replacements the entries ask for; it is that layout with prefixed names |
| `DriftSplice.RewriteIsIdempotent` | scripts/audit_drift_check.py:231-234 | rewriting a rewritten document is the identity, for every parse in which each rewritten reference stands where the rewrite put it and reads what the new text says there |
| `GuardedImports.GuardedImportVisitor.Visit` | scripts/audit_project_hygiene.py:278-304 | the guard stack is restored, and the specified imports are added to the marked ones |
| `GuardedImports.MarkedIffShielded` | scripts/audit_project_hygiene.py:223-304 | an import is marked if and only if some path to it enters the body of a `try` with a handler that catches import errors and contains no `raise` |
| `GuardedImports.GuardsIff` | scripts/audit_project_hygiene.py:223-252 | a `try` guards if and only if one of its handlers is bare or names one of the three exceptions, and no path from its body leads to a `raise` |
| `GuardedImports.ShieldedIsMarked` | scripts/audit_project_hygiene.py:278-304 | under a guard already on the stack, or below one on the path, an import is marked |
| `GuardedImports.MarkedIsShielded` | scripts/audit_project_hygiene.py:278-304 | every marked import has such a path, which is returned |
| `Reachability.ReachedIsLeast` | scripts/audit_project_hygiene.py:540-568 | what is reached is inside every set that holds the roots and is closed under the edges |
| `Reachability.ReachedIsMonotone` | scripts/audit_orphan_recipes.py:146-159 | more entry points and more edges never reach less |
| `Reachability.ReachableFrom` | scripts/audit_orphan_recipes.py:146-159 | terminates, and returns exactly the recipes reachable over prerequisite and body-call edges |
| `Reachability.RequirementClosure` | scripts/audit_project_hygiene.py:540-568 | terminates on cyclic metadata, and returns exactly what is reachable from the normalized roots over active requirements |
| `OrphanRecipes.OrphanAuditRecipes` | scripts/audit_orphan_recipes.py:184-198 | exactly the unreached audit recipes, split by whether they need arguments, each list in ascending order |
| `OrphanRecipes.ClassifyAuditRecipes` | scripts/audit_orphan_recipes.py:184-198 | from the recipe graph to the two lists: every audit recipe is exactly one of reached, listed as runnable and listed as needing arguments, and the lists hold nothing else |
| `OrphanRecipes.RequiresArgumentsIff` | scripts/audit_orphan_recipes.py:162-173 | a recipe needs arguments exactly when it has a parameter without a default that takes one argument or at least one |
| `OrphanRecipes.GateExitsZeroIff` | scripts/audit_orphan_recipes.py:226-260 | the gate's checks all come back empty exactly when every pinned recipe is reached, is no audit recipe or passed, and nothing named is unknown |
| `OrphanRecipes.OrphansArePartitioned` | scripts/audit_orphan_recipes.py:226-260 | pinned, set-aside and unclassified orphans partition the orphans |
| `OrphanRecipes.RunGate` | scripts/audit_orphan_recipes.py:383-424 | the whole gate, reachability included, exits 0 if and only if everything that status stands for holds |
| `ReleaseVerdict.RunGates` | scripts/audit_release_readiness.py:613-663 | the two gate-running loops compute the specified results and runs |
| `ReleaseVerdict.AuditReleaseReadiness` | scripts/audit_release_readiness.py:613-686 | the audit's verdict and runs are the specified ones |
| `ReleaseLaws.EachRecipeRunsAtMostOnce` | scripts/audit_release_readiness.py:613-663 | no `just` recipe runs twice in one audit, however items and checks share it; a check's own command runs at most once for that check |
| `ReleaseLaws.FinalGates` | scripts/audit_release_readiness.py:616-663 | whose record a recipe's shared result is: the first item that runs it, or else the first check |
| `ReleaseLaws.KeyErrorIff` | scripts/audit_release_readiness.py:622-627 | exactly when the missing `blocking` key is read |
| `ReleaseLaws.ReadyIffRecords` | scripts/audit_release_readiness.py:424-493 | READY if and only if no workflow failure, a successful sync, every blocking result ran and passed, and every backlog row is in order |
| `ReleaseLaws.VerdictIff` | scripts/audit_release_readiness.py:424-493 | when each of the four verdicts is given, on the records and every setting |
| `ReleaseLaws.ResultsAreOfRuns` | scripts/audit_release_readiness.py:613-663 | a command ran if and only if some result of it is not marked skipped, and that result is its outcome |
| `ReleaseLaws.ReadyIffConfig` | scripts/audit_release_readiness.py:353-493 | the same condition on the configuration and on which commands pass, for quick and full audits: nothing blocking failed, is missing, was left out or skipped |
| `ReleaseLaws.CouldBeReadyIff` | scripts/audit_release_readiness.py:480-493 | some outcome of the commands makes the audit, quick or full, READY if and only if nothing blocking is left out or skipped and nothing else than a command can fail |
| `ReleaseLaws.QuickIsNotReady` | scripts/audit_release_readiness.py:613-686 | a quick run that left out a slow blocking backlog gate is never READY |
| `ReleaseLaws.QuickWithNothingSlowIsFull` | scripts/audit_release_readiness.py:613-686 | a quick run with nothing slow gives the full run's verdict |
| `ReleaseLaws.UnsoundIsReadyAnyway` | scripts/audit_release_readiness.py:647-650 | in any audit that could be READY, a blocking check whose recipe no blocking holder or item answers for can fail under READY |
| `ReleaseLaws.ReadyMeansPassedIff` | scripts/audit_release_readiness.py:424-493 | in any audit that could be READY, quick or full, READY implies that every blocking check passed, whatever the commands do, if and only if no such shadowing exists |
| `ReleaseLaws.SurvivesFailureIff` | scripts/audit_release_readiness.py:424-478 | a READY audit survives the failure of a recipe if and only if its shared record is no blocking run and no blocking item but 1462 needs it |
| `ReleaseLaws.ExemptItemStillBlocks` | scripts/audit_release_readiness.py:438-470 | a failing gate of item 1462 still blocks when 1462 is the blocking item it is run for |

## Left out

- JSON-RPC, subprocesses, token files and timeouts of the bathos and praxia adapters: their answers are parameters.
- git's plumbing and hashes: a commit's identifier is its position in the store. The single-controller model always creates a new commit; the race model also lets git answer with an identical commit it already has.
- GitStore.Repo.ReadBestSoFar: a failing `git rev-parse` on an existing ref, which the source also answers with None, is not modelled: reading the ref always finds it. `LoopLaws.ConsistencyErrorsUnreachable` and the last clause of `LoopLaws.LineageOfRun` rest on that.
- An injected gate that itself raises the controller's `CandidateRunFailedError` or another of its own exceptions: what gates raise and what the controller raises are separate types.
- Two automated checks with the same `command` string: each runs its own, and the model tells them apart by position.
- The bodies of `compute_ratchet_decision` and `is_structural_mutation`: arbitrary functions that may raise.
- The gates inside `xtrax.loop` other than the seed floor, the stats verdict and the diversity window: answers that may raise.
- Floating point: fitness values are reals that only the ratchet function reads.
- A clock or an `on_leap_path_required` handler that raises, and the watchdog's kill: the loop's clock reads and that handler are taken to return; the watchdog is a start and a stop request.
- Task ids, log messages, probe record files and the closure-manifest contents: opaque values or events.
- LoopErasure.FailedCandidatesAreErasable: says nothing of a run whose reset after a failed candidate fails, because that ends the run with an exception the shorter run does not meet.
- DriftSplice.RewriteIsIdempotent: asks that each rewritten reference reads what the new text says at its place, which a name with an apostrophe inside single quotes, a quotation mark or backslash inside double quotes, or one that is no plain scalar, does not.
- YAML, TOML and Python parsing: the models start from nodes with spans, recipe graphs, requirement lists and a small syntax tree; of how a rewritten document parses, `Reread` assumes only the structure and the place of each rewritten reference.
- Name normalization and environment markers of requirements: an arbitrary function and a flag per requirement.
- Line separators other than the newline in changelog texts, a newline in a version or date, ISO date validity (a flag), and the syntax of fragment file names (an optional category).
- Changelog file writing and fragment deletion, and the messages of its errors.
- The drift check's manifest loading and its final comparison of exports: easy members over the rewrite modelled here.
- `check_imports_are_declared` and the other list-building hygiene checks: easy members over the visitor and the closure.
- Reading the pin file and its reason and timeout formats: its four tables are given as sets, and results as the set of recipes that passed.
- The workflow-marker scan, the coverage state, freshness of human attestations and report rendering of the release audit: a count, flags or nothing.
- The many other audit command lines, measurement scripts and configuration loaders: field validation with no hard property.
