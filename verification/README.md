# Verified models of the harness tooling

This project models the parts of the repository whose correctness is hard to see by reading them, and
proves what they promise. `dafny verify dfyconfig.toml` checks everything.

| files | what is modelled |
|---|---|
| `CommitProtocol.dfy` | the compare-and-swap commit of the configuration file, as interleaved and crashing steps of any number of processes, next to the publisher of the default file that takes no lock |
| `Repositories.dfy`, `SyncMoments.dfy`, `WorkspaceSync.dfy`, `GitAnswers.dfy` | the snapshot, synchronize and restore protocol over a git repository in which every command may fail: the repository, what holds from one recorded moment to another, the commands, and the answers asked of git |
| `Fft.dfy` | the radix-2 transform of the tonal analysis, in place, over any commutative ring with roots of unity |
| `Coverage.dfy`, `CoverageGate.dfy` | coverage profiles, the arithmetic of coverage floors, and the changed-package run beside the full run |
| `CiWait.dfy`, `CiMeanings.dfy` | the reconciled observation of a pull request, its lookup, and the wait for its checks; what rows, views and groups of checks mean, from what was read |
| `Admission.dfy`, `AdmissionRights.dfy`, `AdmissionRuns.dfy` | the admission record, its canonical form and operations; who may call them; and their interleaved runs |
| `GraphSearch.dfy` | the shortest import chain, the search for leaking types, and the two searches for the messages package |
| `WebSocket.dfy` | the frame codec and the reader loop of the readiness probe (RFC 6455, sections 5.2 to 5.5) |
| `Glob.dfy` | the compiler from glob patterns to regular expressions |
| `RaceGate.dfy` | the verdict over the event streams of one or two test runs |
| `PythonText.dfy`, `GoText.dfy`, `Options.dfy` | strings as the two languages trim and split them, and values that may be absent |

Code that works step by step is a class or a method with its loops, proved against functions and predicates;
protocols between processes are state machines; the properties are lemmas over all inputs or all runs. What the
synchronization relies on in git's answers can be met for every history (`GitAnswers.SoundAnswersExist`).

## Findings

Some promises hold only under a condition. The code is modelled as it is, the condition is proved, and a
concrete input shows what happens without it.

- A commit that was prepared from a missing file can overwrite a default that another process published after the
  revision check (`CommitProtocol.ReplacesExpectedIff`, `CommitProtocol.DefaultCanBeOverwritten`).
- The workspace synchronization takes a failing `git status` for "no local changes", a failing
  `git rev-parse --verify` for "no main", and a failing `git branch --show-current` for "main is not checked out". The
  ghost fields `misled`, `unseen` and `astray` mark these three answers.
  - After the first, a hard reset without a snapshot can undo uncommitted edits. If it is the only command that fails,
    a checked out main keeps the work exactly when the commit is missing, the pull takes it, or the reset undoes
    nothing (`WorkspaceSync.Checkout.SyncCheckedOutMain`), and a reused worktree exactly when the branch is not reset
    to its upstream or the reset undoes nothing; whether it is reset, and to which commit, is a function of what the
    fetches bring (`WorkspaceSync.Checkout.SyncReusedWorktreeBranch`). `WorkspaceSync.StatusFailureLosesWork` and
    `WorkspaceSync.StatusFailureLosesWorktreeWork` are runs that lose an edit.
  - After the second, and only then, an existing main is created once more, and keeps its history exactly when it is
    created at a descendant (`WorkspaceSync.Checkout.SyncMain`, `Repositories.KeepsHistoryIff`). The files and the work
    are safe all the same. `WorkspaceSync.MainFailureLosesCommit` is a run that loses a commit.
  - After the third, and only then, main is moved under the checkout that has it, without the guard; a clean checkout
    is left with the residue that the guard rejects exactly when the two commits have different trees
    (`WorkspaceSync.Checkout.SyncMain`). `WorkspaceSync.BranchFailureLeavesResidue` is such a run.
  - Whatever other commands fail, none of this happens.
- The identity of a check row joins its parts with `|`. If a name contains that character, two rows with different
  names can share an identity, and a failed row that appears under a policy name only in the later view goes
  unnoticed (`Observation.SeparatorHidesRow`). Exactly, a row counts if and only if GitHub requires its identity or the
  first view has that identity under a policy name (`Observation.RowCountsIff`), so without such names every read is
  covered (`Observation.PlainNamesReachEveryRead`).
- A fragmented message whose first fragment is empty ends the wait for the session as an unexpected continuation,
  although section 5.4 of RFC 6455 allows it (`Reassembly.FirstMessageDecides`, `Reassembly.EmptyStartIsRefused`).
- A floor raised to the lowest meaningful minimum tolerates a loss only while 0.1% is left
  (`CoverageFloors.SuggestionSurvivesOneStatement`, `CoverageFloors.SuggestionToleratesJitter`,
  `CoverageFloors.RaisedFloorFails`).
- A scoped coverage run reports a selected package without a registration always, the full run only if the package
  has statements (`ScopedRun.ScopedFindsTheSame`, `ScopedRun.OnlyScopedReports`).

## Model

| member | source | states |
|---|---|---|
| `CommitProtocol.InvariantHolds` | agent-cli/internal/config/revision.go:86-126 | over every interleaving, crashes and failures included: the file is what the last publication wrote, holders own the lock, a passed revision check stays valid up to a default until its rename, and reports agree with the history |
| `CommitProtocol.MutualExclusion` | agent-cli/internal/config/revision.go:269-309 | at most one process is between taking and giving back the lock |
| `CommitProtocol.DefaultOnlyFirst` | agent-cli/internal/config/revision.go:188-205 | a default is only ever the first publication, and only where no file was |
| `CommitProtocol.CommitsFormChain` | agent-cli/internal/config/revision.go:86-126 | no lost update: each published commit was prepared from what the commit before it published |
| `CommitProtocol.ReplacesExpectedIff` | agent-cli/internal/config/revision.go:106-126 | a commit replaces exactly the revision it was prepared from, if and only if no default came between its check and its rename |
| `CommitProtocol.OutcomesAreTruthful` | agent-cli/internal/config/revision.go:86-126 | reported success is a publication; a reported conflict or unavailable lock published nothing |
| `CommitProtocol.DefaultKeepsExistingFile` | agent-cli/internal/config/revision.go:188-205 | in every run, from the moment there is a file only commits publish, and the file changes only through them |
| `CommitProtocol.CompareAndSwap` | agent-cli/internal/config/revision.go:86-186 | an undisturbed commit succeeds if and only if it was prepared from the file on disk, leaves the file alone otherwise, and returns the lock |
| `CommitProtocol.RevisionIdentifies` | agent-cli/internal/config/revision.go:128-147 | a revision tells a missing file, every content and every type of file apart |
| `CommitProtocol.LockReturns` | agent-cli/internal/config/revision.go:300-320 | in every run, whatever fails on the way, a commit that took the lock gives it back, unless it crashes or comparing or removing the lock file fails |
| `CommitProtocol.SuccessIsWhole` | agent-cli/internal/config/revision.go:86-186 | in every run, a commit one of whose steps failed, before or after the rename, never reports success |
| `CommitProtocol.EarlyFailurePublishesNothing` | agent-cli/internal/config/revision.go:106-126 | in every run, a commit that failed up to its rename never publishes anything |
| `CommitProtocol.DefaultCanBeOverwritten` | agent-cli/internal/config/revision.go:192-205 | a run in which a commit overwrites a default published after its check |
| `Repositories.MergeBaseDecidesFastForward` | factory/scripts/setup-workspace.py:474-482 | comparing the merge base with the local commit decides ancestry, both ways |
| `Repositories.ApplyPresents` | factory/scripts/setup-workspace.py:371-384 | applying a snapshot brings every tracked edit and every untracked file back, whatever the files became meanwhile |
| `Repositories.ConflictMeans` | factory/scripts/setup-workspace.py:371-384 | a snapshot applies exactly when no untracked file would replace another one and every change merges |
| `Repositories.CaptureAndApply` | factory/scripts/setup-workspace.py:215-348 | capturing and applying at the same commit restores the working tree exactly |
| `Repositories.MoveKeepsWork` | factory/scripts/setup-workspace.py:818-818 | after a switch to another commit the local work is the same, path by path |
| `Repositories.ResetKeepsIff` | factory/scripts/setup-workspace.py:627-631 | without a snapshot, a hard reset keeps the local work if and only if no edit is undone and no untracked file is overwritten |
| `Repositories.NoCommitIsLost` | factory/scripts/setup-workspace.py:877-908 | a branch that goes forward, or had everything pushed, loses no commit |
| `Repositories.KeepsHistoryIff` | factory/scripts/setup-workspace.py:686-688 | a branch that is set without looking keeps every commit of its history if and only if it is set to a descendant |
| `WorkspaceSync.Checkout.ClearLocalChanges` | factory/scripts/setup-workspace.py:285-293 | the work stays anchored at every moment of the clearing, whatever fails |
| `WorkspaceSync.Checkout.WriteSnapshot` | factory/scripts/setup-workspace.py:308-334 | the commits written hold exactly the local work, untracked files as third parent; nothing else changes |
| `WorkspaceSync.Checkout.StashLocalChanges` | factory/scripts/setup-workspace.py:296-348 | at every moment the work is in the working tree or recoverable from its private ref; a capture that succeeds is anchored and leaves a clean checkout; one that fails needs a failing command, a missing HEAD, or an earlier snapshot of the same work; without local changes there is nothing to capture |
| `WorkspaceSync.Checkout.RestoreStashedChanges` | factory/scripts/setup-workspace.py:371-410 | the ref goes only after the work is back in the working tree; every failure leaves it anchored, and needs a failing command or a conflict |
| `WorkspaceSync.Checkout.MatchesAncestor` | factory/scripts/setup-workspace.py:574-582 | whether some proper ancestor in the listing has the tree |
| `WorkspaceSync.Checkout.VerifyNoAncestorResidue` | factory/scripts/setup-workspace.py:549-589 | unless a command fails, accepts exactly the states without ancestor residue |
| `WorkspaceSync.Checkout.VerifyRootAfterRestore` | factory/scripts/setup-workspace.py:592-612 | a rejected state is untouched and, when re-anchoring succeeds, both in the working tree and anchored |
| `WorkspaceSync.Checkout.CanFastForward` | factory/scripts/setup-workspace.py:474-482 | exactly the strict fast-forwards, unless the command fails; no common ancestor is an answer |
| `WorkspaceSync.Checkout.MoveToRemote` | factory/scripts/setup-workspace.py:627-633 | main goes forward or to the given commit, nothing else moves, and the work stays backed; without a snapshot, exactly what a hard reset did to the work; if no command fails, the pull or the reset brings main to the commit exactly when that can be |
| `WorkspaceSync.Checkout.SyncCheckedOutMain` | factory/scripts/setup-workspace.py:615-644 | the whole of snapshot, move, restore and guard: moves and safety of the work at every moment; what success means; if no command fails, the ending is a function of what the repository and the remote have: success with the work restored, or the one of the named reasons that applies; and, when only the question for local changes fails, exactly when the work is kept |
| `WorkspaceSync.Checkout.SyncMain` | factory/scripts/setup-workspace.py:653-706 | the work is safe at every moment; an existing main only moves on to descendants, or is created once more exactly when the question for it fails, with the files as they were and its history kept exactly for a descendant; it is moved under its checkout exactly when the question for the branch fails; skipped and up-to-date change nothing; if no command fails, main comes to what the remote says exactly if that is a strict fast-forward that the pull or the reset reaches, with the work restored, and each other ending has its condition; what a failing fetch or question for the remote ends in |
| `WorkspaceSync.Checkout.CheckoutBranch` | factory/scripts/setup-workspace.py:818-818 | a switch that succeeds, creating the branch where its remote is if need be and changing no other ref, keeps the local work; a refused one changes nothing; one that breaks off moves no ref |
| `WorkspaceSync.SwitchMeans` | factory/scripts/setup-workspace.py:818-818 | a switch is accepted exactly when the branch or its remote branch is there with its commit and the local changes can move; where a created branch starts |
| `WorkspaceSync.Checkout.MoveToUpstream` | factory/scripts/setup-workspace.py:842-908 | the branch moves on to a descendant, or adopts a rewritten upstream if all it had was in the upstream from before the fetch; a diverged branch is not reset, and is neither behind its upstream nor at the old one; if no command fails, what the two fetches bring decides between these, both ways |
| `WorkspaceSync.Checkout.SyncReusedWorktreeBranch` | factory/scripts/setup-workspace.py:809-910 | no unique commit of the branch is ever lost, the local work is safe at every moment, success means being at the upstream with the work present; if no command fails, what the fetches bring decides, both ways, between pulled forward, reset forward, adopted, diverged and gone, with the work restored and its private ref gone, and an interruption has a named reason; when only the question for local changes fails, exactly when the branch is reset, to which commit, and when the work is kept |
| `WorkspaceSync.StatusFailureLosesWork` | factory/scripts/setup-workspace.py:67-70 | a run in which only the question for local changes fails, and an edit is lost |
| `WorkspaceSync.StatusFailureLosesWorktreeWork` | factory/scripts/setup-workspace.py:67-70 | the same in a reused worktree |
| `WorkspaceSync.MainFailureLosesCommit` | factory/scripts/setup-workspace.py:434-440 | a run in which only the question for main fails, and main loses a commit |
| `WorkspaceSync.BranchFailureLeavesResidue` | factory/scripts/setup-workspace.py:53-57 | a run in which only the question for the branch fails, and a clean checkout is left with residue |
| `BitReversal.NextReversed` | scripts/analyze-room-turn-latency-audio.py:43-47 | the carry loop takes the reversal of i to the reversal of i + 1 |
| `BitReversal.RevInvolution` | scripts/analyze-room-turn-latency-audio.py:41-49 | bit reversal undoes itself, so swapping upward permutes |
| `BitReversal.BitReverse` | scripts/analyze-room-turn-latency-audio.py:41-49 | the swap loop permutes the buffer by exact bit reversal, for every length 2^k |
| `Fft.DftSplit` | scripts/analyze-room-turn-latency-audio.py:51-64 | a transform of 2n terms is the even one plus the twiddled odd one |
| `Fft.Butterfly` | scripts/analyze-room-turn-latency-audio.py:58-63 | the two outputs of a butterfly are the entries j and j + n of the larger transform |
| `Fft.Combine` | scripts/analyze-room-turn-latency-audio.py:57-63 | the innermost loop combines the two halves of a block in place |
| `Fft.Stage` | scripts/analyze-room-turn-latency-audio.py:55-64 | one pass turns blocks that hold transforms of half the length into blocks that hold transforms |
| `Fft.Transform` | scripts/analyze-room-turn-latency-audio.py:41-64 | bit reversal and all stages leave the discrete Fourier transform of the input, over every lawful ring, for every 2^k |
| `Fft.PeakBin` | scripts/analyze-room-turn-latency-audio.py:31-73 | there is a peak exactly when the frame is not silent, fits in the buffer, and some bin from 1 on within the spectrum lies between 80 and 8000 Hz; it is then such a bin, of largest energy among all of them, and the first of those; frames longer than the buffer are an index error |
| `Residues.RootsFor512` | scripts/analyze-room-turn-latency-audio.py:19-19 | the laws and roots that the transform asks for exist at its size: the integers modulo 7681 have them for 512 samples |
| `CoverageProfiles.PackageOfMeans` | tools/coveragegate/profile_blocks.go:73-99 | a file range belongs to what stands before its last slash, and to nothing unless a file name and lines follow |
| `CoverageProfiles.MergedBlocks` | tools/coveragegate/profile_blocks.go:19-28 | merging succeeds if and only if the lines are consistent, and a location is covered if and only if some line executes it |
| `CoverageProfiles.OrderAndRepetitionDoNotMatter` | tools/coveragegate/profile_blocks.go:11-28 | the merged blocks depend only on which lines there are |
| `CoverageProfiles.BlockMap.AddProfileLine` | tools/coveragegate/profile_blocks.go:114-126 | adds one line to the shared map, or rejects it |
| `CoverageProfiles.BlockMap.ParseProfile` | tools/coveragegate/profile_blocks.go:30-58 | adds all lines of a profile with a mode to what was there |
| `CoverageProfiles.AddUp` | tools/coveragegate/coverage.go:561-570 | the totals by package of all blocks, in any order |
| `CoverageProfiles.ReadProfiles` | tools/coveragegate/coverage.go:536-571 | succeeds if and only if there are profiles, of one mode and consistent, and measures every package by the merged blocks |
| `CoverageProfiles.CoveredWithinTotal` | tools/coveragegate/coverage.go:561-570 | covered statements lie between none and all |
| `CoverageFloors.ActualIsRounded` | tools/coveragegate/coverage.go:756-764 | the percentage is rounded to the nearest tenth, and nothing for no statements |
| `CoverageFloors.AllowedIsHeadroom` | tools/coveragegate/coverage.go:244-250 | the allowed headroom is two points, or twice one statement and the band where that is more |
| `CoverageFloors.SuggestionFits` | tools/coveragegate/coverage.go:252-258 | a floor at the suggestion is never stale, and violated only below 0.1% |
| `CoverageFloors.SuggestionSurvivesOneStatement` | tools/coveragegate/coverage.go:238-258 | exactly when it survives the loss of one covered statement |
| `CoverageFloors.SuggestionToleratesJitter` | tools/coveragegate/coverage.go:252-258 | exactly when it survives a move of up to half the headroom either way |
| `CoverageFloors.RaisedFloorFails` | tools/coveragegate/coverage.go:252-258 | one covered statement of two: the suggested floor is violated once that is lost, within half the headroom |
| `CoverageFloors.NoMinimumIsEmpty` | tools/coveragegate/coverage.go:502-508 | no accepted minimum passes with nothing covered |
| `AffectedScope.StripTestVariants` | tools/coveragegate/affected.go:268-277 | the set of the packages that the listed names are variants of |
| `AffectedScope.VariantsName` | tools/coveragegate/affected.go:266-277 | a package and its test variants strip to the package |
| `AffectedScope.Intersects` | tools/coveragegate/affected.go:303-310 | whether the sets share a package |
| `AffectedScope.CloseOverChanged` | tools/coveragegate/affected.go:279-301 | selects exactly the tests whose binary links a changed package, and checks exactly the packages that are changed or import a changed one |
| `CoverageComparison.ValidateManifest` | tools/coveragegate/coverage.go:706-754 | accepts exactly the manifests whose entries are valid and sorted throughout; otherwise the first fault, of the kind it has |
| `CoverageComparison.FullFindings` | tools/coveragegate/coverage.go:579-685 | when there is which finding, with which numbers: a floor missed by more than the band, a stale floor, an unmeasured package, a measured exception, an unregistered package |
| `CoverageComparison.SelectedFindings` | tools/coveragegate/coverage.go:618-685 | the same over the selected packages |
| `CoverageComparison.Compare` | tools/coveragegate/coverage.go:579-612 | exactly the findings of every registration and every unregistered measurement; none if and only if each registered package meets its condition and every measured one is registered |
| `CoverageComparison.CompareSelected` | tools/coveragegate/coverage.go:618-651 | exactly the findings of the selected packages; none if and only if each selected package is registered and meets its condition |
| `ScopedRun.ReportersAreSelected` | tools/coveragegate/affected.go:279-301 | every test that reports a block of a checked package is selected |
| `ScopedRun.ScopedMeasuresTheSame` | tools/coveragegate/affected.go:279-310 | the selected tests measure the same for every checked package as all tests, in any order and with repetitions |
| `ScopedRun.ScopedFindsTheSame` | tools/coveragegate/coverage.go:579-651 | the scoped run finds about checked, registered packages exactly what the full run finds; exactly how they differ on the others |
| `ScopedRun.OnlyScopedReports` | tools/coveragegate/coverage.go:629-639 | a run with a readable profile and an unregistered package that the scoped comparison reports and the full one does not |
| `CheckRows.ListHolds` | factory/scripts/ci-wait.py:629-641 | the map of an accepted list has each row under its identity and nothing else |
| `CheckRows.NormalizeCheckList` | factory/scripts/ci-wait.py:629-641 | the loop over the rows fills that map or rejects with the first problem |
| `CiMeanings.StateMeans` | factory/scripts/ci-wait.py:542-559 | the state of a row is its conclusion once it is over, and what it says otherwise |
| `CiMeanings.CheckMeans` | factory/scripts/ci-wait.py:572-626 | a row is accepted exactly as the check that its fields say it is: kind, name, link, workflow, identity, state and group |
| `CiMeanings.ListIsReadable` | factory/scripts/ci-wait.py:629-641 | a list is accepted if and only if every row is a check and no two have one identity |
| `Observation.SelectPolicyChecks` | factory/scripts/ci-wait.py:691-708 | the rows with a policy name, or a rejection if a name has none |
| `CiMeanings.MergedRows` | factory/scripts/ci-wait.py:644-667 | a merged row keeps what the first read says and takes missing links and workflows from the second |
| `Observation.EnforcedCovers` | factory/scripts/ci-wait.py:711-734 | every row of a policy name and every row GitHub requires is enforced in the state it has |
| `CiMeanings.ReconcileIff` | factory/scripts/ci-wait.py:644-734 | the reads are reconciled if and only if every list is readable, all agree on identities and states, the required rows are among them, and every policy name occurs |
| `CiMeanings.ViewMeans` | factory/scripts/ci-wait.py:737-783 | a view is used exactly when it is of the open pull request and tells a head, a list of checks and a consistent answer whether it can be merged |
| `CiMeanings.StatusMeans` | factory/scripts/ci-wait.py:796-900 | exactly when a pull request counts as merged, and when as conflicting |
| `CiMeanings.NoChecksMeans` | factory/scripts/ci-wait.py:806-1027 | exactly when it counts as having no checks |
| `CiMeanings.ValidIff` | factory/scripts/ci-wait.py:806-1027 | exactly when an observation is valid |
| `CiMeanings.HeadMeans` | factory/scripts/ci-wait.py:786-806 | an observation is of the head that the later view tells, otherwise the earlier |
| `Observation.PassingIsGreen` | factory/scripts/ci-wait.py:806-1027 | a valid snapshot whose checks succeeded means an open, mergeable pull request on one head whose policy and required rows succeeded in every read |
| `Observation.RowCountsIff` | factory/scripts/ci-wait.py:644-734 | a row of any read counts, with the state it has, if and only if its identity is required or stands in the first view under a policy name |
| `Observation.PlainNamesReachEveryRead` | factory/scripts/ci-wait.py:644-668 | without the separator in names, policy names also reach rows of the later reads |
| `Observation.SeparatorHidesRow` | factory/scripts/ci-wait.py:572-626 | with it, a failed row under a policy name can go unnoticed |
| `Waiting.AlwaysSelectable` | factory/scripts/ci-wait.py:361-420 | the branch without a selectable state is dead, and the preference is open, merged, closed |
| `Waiting.ResolvePr` | factory/scripts/ci-wait.py:361-420 | at most 5 times 3 lookups although the failure counter is reset, and exactly why it ends |
| `CiMeanings.ListMeans` | factory/scripts/ci-wait.py:289-335 | a listing is used exactly when each entry has a number and a known state, entry by entry |
| `CiMeanings.PreferredMeans` | factory/scripts/ci-wait.py:361-420 | the first pull request of the most preferred state that occurs is selected |
| `Waiting.PassingMeans` | factory/scripts/ci-wait.py:1030-1056 | no failed and no pending check means that every check succeeded |
| `CiMeanings.ThreeGroups` | factory/scripts/ci-wait.py:1030-1056 | every enforced check succeeded, is pending or failed, and is in one group only |
| `CiMeanings.FailureMeans` | factory/scripts/ci-wait.py:1030-1056 | the wait ends with failed checks if and only if an enforced check ended otherwise than with success |
| `CiMeanings.FingerprintMeans` | factory/scripts/ci-wait.py:168-196 | fingerprints are equal exactly for one head, equal mergeability and the same checks in the same states |
| `Waiting.Wait` | factory/scripts/ci-wait.py:1122-1226 | ends with the first observation that has a reason to, for that reason, within a bounded number of observations |
| `Waiting.SuccessIsGreen` | factory/scripts/ci-wait.py:1146-1184 | success means that the last two observations, in a row, were green on the same head with equal fingerprints |
| `Waiting.ConvergenceEndsTheWait` | factory/scripts/ci-wait.py:1165-1184 | two agreeing passing observations in a row are not missed |
| `AdmissionRecord.ReadsBack` | factory/scripts/project_admission.py:615-640 | a valid record reads back as it was written |
| `AdmissionRecord.ReadableIffValid` | factory/scripts/project_admission.py:332-495 | the records that can be read are exactly the valid ones |
| `AdmissionRecord.CanonicalIdempotent` | factory/scripts/project_admission.py:332-495 | the canonical form of a canonical form is itself, whatever spellings were read |
| `AdmissionRights.OwnedMeans` | factory/scripts/project_admission.py:237-311 | a value is owned when all it says of its owner, under any spelling, itself or in its identity, is this owner, or nothing |
| `AdmissionRights.CanonicalMeans` | factory/scripts/project_admission.py:332-495 | a file is read exactly as the record that it says, when all spellings agree and nothing else is there |
| `ProjectAdmission.WritesReadBack` | factory/scripts/project_admission.py:693-975 | every record an operation builds is valid and reads back as the same record |
| `ProjectAdmission.Replay` | factory/scripts/project_admission.py:693-975 | a repeated successful call returns the same record and writes nothing; a repeated recovery is a mismatch |
| `ProjectAdmission.EitherOrder` | factory/scripts/project_admission.py:926-930 | contract and evidence may come in either order unless both are strings |
| `AdmissionRights.AdmitIff` | factory/scripts/project_admission.py:693-746 | exactly who is admitted: anyone on a free record, otherwise only its owner, and what the record becomes |
| `AdmissionRights.BindIff` | factory/scripts/project_admission.py:786-821 | exactly which bindings succeed: of the admitted project, under its contract if named, never over another session |
| `AdmissionRights.RecoverIff` | factory/scripts/project_admission.py:838-906 | exactly which recoveries succeed: naming the recorded project, contract, server and session, on evidence of no other owner |
| `AdmissionRights.ReleaseIff` | factory/scripts/project_admission.py:910-975 | exactly which releases succeed: naming the project, its contract and session if given, with evidence of no other owner |
| `AdmissionRights.FailuresAreTrue` | factory/scripts/project_admission.py:693-975 | a failing call changes nothing and its error is true of the file |
| `ProjectAdmission.AdmissionStore.WriteState` | factory/scripts/project_admission.py:615-657 | writes the canonical form, or refuses and changes nothing |
| `ProjectAdmission.AdmissionStore.Admit` | factory/scripts/project_admission.py:693-746 | performs the transition of an admission; its write is never refused |
| `ProjectAdmission.AdmissionStore.BindEndpoint` | factory/scripts/project_admission.py:786-821 | performs the transition of a binding |
| `ProjectAdmission.AdmissionStore.ResumeSession` | factory/scripts/project_admission.py:838-906 | performs the transition of a recovery |
| `ProjectAdmission.AdmissionStore.Release` | factory/scripts/project_admission.py:910-975 | performs the transition of a release, both argument orders included |
| `AdmissionRuns.StepKeepsInvariant` | factory/scripts/project_admission.py:540-602 | holding the lock, having read the current file, and the history being a run are kept by every step |
| `AdmissionRuns.OneAtATime` | factory/scripts/project_admission.py:540-657 | interleaved, crashing and failing processes act on the file like one call after another |
| `AdmissionRuns.OwnerChangesByAdmission` | factory/scripts/project_admission.py:714-746 | project and contract change only through an admission of a free or released record |
| `AdmissionRuns.OwnerStays` | factory/scripts/project_admission.py:714-746 | a run without a new admission keeps its owner |
| `AdmissionRuns.AdmissionEndsByRelease` | factory/scripts/project_admission.py:910-975 | in every run, an admission ends only by a release that its owner was entitled to |
| `AdmissionRuns.RecoveryCases` | factory/scripts/project_admission.py:869-906 | a recovery names exactly the session bound before it, and records it |
| `AdmissionRuns.SessionsFormChain` | factory/scripts/project_admission.py:786-906 | within one admission the bound sessions form a chain of recoveries |
| `AdmissionRuns.RecoveriesCompareAndSwap` | factory/scripts/project_admission.py:847-906 | two recoveries from one session need, between them, a return to it or a new admission |
| `ImportChain.Chain` | scripts/prod-deps-check.py:120-135 | a path from start to target than which none is shorter; the target alone if there is none |
| `ImportChain.WalkBack` | scripts/prod-deps-check.py:132-135 | the walk up the tree, reversed, is such a path |
| `PublicSurface.ScanImplementationPath` | tools/architecturegate/public.go:209-217 | the scan finds the word internal behind the first element |
| `PublicSurface.ImplementationPathMeans` | tools/architecturegate/public.go:209-217 | that is: internal between a slash and another or the end |
| `PublicSurface.Search.ImplementationType` | tools/architecturegate/public.go:34-67 | terminates on cycles; a leak is reachable, and without one everything behind the type was explored |
| `PublicSurface.Search.VisitAll` | tools/architecturegate/public.go:69-207 | the same for the lists that the helpers visit |
| `PublicSurface.FindLeak` | tools/architecturegate/public.go:34-67 | reports a leak if and only if an implementation type is reachable through followed edges |
| `PublicSurface.FollowedMeans` | tools/architecturegate/public.go:69-207 | which types each kind of type leads to: arguments, constraints, underlying type, exported methods and fields, embedded ones, and parts |
| `PublicSurface.LeakMeans` | tools/architecturegate/public.go:34-207 | a leak is a chain of such edges to a named type of a package with internal behind a slash |
| `PublicSurface.PublicSurfaceIssues` | tools/architecturegate/public.go:12-32 | one issue for each exported symbol behind which one is reachable, in order |
| `MessagesImports.Search.ImportedMessages` | tools/architecturegate/analyzer.go:114-128 | the recursive search with its shared visited set |
| `MessagesImports.FindMessages` | tools/architecturegate/analyzer.go:114-128 | finds a messages package if and only if one is reachable |
| `MessagesImports.MessagesPackage` | tools/architecturegate/analyzer.go:97-112 | a package reached by imports, and only without one the package of the first field in scope order whose type is in messages; nothing if and only if there is neither |
| `MessagesImports.PackagesReachingMessages` | tools/architecturegate/analyzer.go:235-260 | exactly the least set that holds messages and whatever imports a member |
| `Frames.MaskingIsAnInvolution` | deploy/localai/readiness.go:253-257 | masking twice with one key restores the payload |
| `Frames.BigEndianRoundTrip` | deploy/localai/readiness.go:224-237 | extended lengths read back |
| `Frames.RoundTrip` | deploy/localai/readiness.go:212-290 | reading a written frame returns it and the bytes behind it, across the three length encodings, masked or not; above 4 MiB it is refused |
| `Frames.LongFormsRead` | deploy/localai/readiness.go:224-240 | a length in a longer form than it needs is read as well |
| `Frames.Rfc6455Frames` | deploy/localai/readiness.go:212-290 | the example frames of section 5.7 of RFC 6455, byte by byte |
| `Frames.Rfc6455Lengths` | deploy/localai/readiness.go:224-240 | the lengths of 256 bytes and 64 KiB of that section |
| `Frames.ClientFrameRoundTrip` | deploy/localai/readiness.go:261-290 | a client frame reads back if and only if its opcode fits in four bits and its payload in 4 MiB |
| `Session.Connection.ReadFrame` | deploy/localai/readiness.go:212-259 | decodes the front of the input and consumes exactly that frame |
| `Session.Connection.WriteClientFrame` | deploy/localai/readiness.go:261-290 | writes exactly the encoded frame |
| `Session.ApplyMask` | deploy/localai/readiness.go:281-284 | the in-place loop masks the payload |
| `Session.Connection.WaitForSessionCreated` | deploy/localai/readiness.go:162-210 | the loop reads and answers as the function of the bytes says, whose endings `Waits.WaitMeans` characterizes |
| `Waits.WaitMeans` | deploy/localai/readiness.go:162-210 | over all input, the wait ends for the reason of the first frame that has one, each reason described by the frames before it; a failed read if and only if no frame has one; and exactly the pings before it are answered, in order |
| `Waits.PongsReadBack` | deploy/localai/readiness.go:173-178 | what is written reads back as one pong for each ping |
| `Reassembly.FeedMessage` | deploy/localai/readiness.go:162-210 | what one legal message, control frames interleaved, does to the loop |
| `Reassembly.ServeFrames` | deploy/localai/readiness.go:162-210 | the loop over bytes does what the loop over decoded frames does |
| `Reassembly.Reassembles` | deploy/localai/readiness.go:162-210 | every legal stream is reassembled message by message, each ping answered by one pong of equal payload, in order |
| `Reassembly.FirstMessageDecides` | deploy/localai/readiness.go:162-210 | the first text message that is the event ends the wait with success, unless it or a message before it starts with an empty fragment |
| `Reassembly.EmptyStartIsRefused` | deploy/localai/readiness.go:185-200 | a legal stream with the event behind an empty first fragment ends as an unexpected continuation |
| `Glob.RecursiveGlobExpression` | tools/architecturegate/rules.go:282-290 | the index loop writes the expression of the pattern |
| `Glob.ExpressionParses` | tools/architecturegate/rules.go:282-310 | no character of the pattern is ever read as regular expression syntax |
| `Glob.RegexMeansPattern` | tools/architecturegate/rules.go:292-310 | the regular expression matches exactly what the pattern means, from every position |
| `Glob.CompiledMatchesExactly` | tools/architecturegate/rules.go:263-310 | for every pattern with a double star and every value, matching is exactly the direct meaning of the pattern |
| `Glob.OwnsDirectory` | tools/architecturegate/rules.go:263-280 | a literal directory with a slash and a double star matches the directory and exactly the paths below it |
| `Glob.PlainPattern` | tools/architecturegate/rules.go:263-280 | a pattern without two stars in a row matches itself and what the matcher of segments accepts |
| `GoText.SplitJoins` | tools/racegate/main.go:117-117 | the pieces put together with the separator are the string, and none contains it |
| `GoText.TrimMeans` | tools/racegate/main.go:118-118 | trimming takes away white space at the ends, all of it, and nothing else |
| `RaceGate.SplitRequired` | tools/racegate/main.go:114-129 | the trimmed names in the list, each once, no empty one, in the order in which they first come |
| `RaceGate.ParseEvents` | tools/racegate/events.go:29-71 | tallies every required test exactly as the complete output says; nothing for an incomplete one |
| `RaceGate.OutputAddsUp` | tools/racegate/events.go:29-71 | what a test says in parts of the output is put together in order |
| `RaceGate.ClassifyResults` | tools/racegate/events.go:73-89 | each required test in exactly the list of its class |
| `RaceGate.FirstReport` | tools/racegate/main.go:197-208 | verified if and only if the output is complete and each required test passed once and did nothing else; which list has which tests, by what the output says of them |
| `RaceGate.RetryVerified` | tools/racegate/events.go:98-126 | verified if and only if only the retried test ran, and passed once |
| `RaceGate.EligibleRetryTest` | tools/racegate/main.go:229-243 | a retry if and only if exactly one required test failed, in the recognized way, and all others passed once |
| `RaceGate.ContainsMeans` | tools/racegate/main.go:229-243 | the recognized output has the marker somewhere in it |
| `RaceGate.Execute` | tools/racegate/main.go:153-186 | passes if and only if the first attempt is clean, or it is retried and the second is |
| `RaceGate.PassMeans` | tools/racegate/main.go:153-186 | over all output, each required test passed once and never skipped; only the retried one failed, in the first attempt |

## Left out

- File systems, processes and the network are steps that may fail; command output is modelled by its parsed value.
- Digests are injective; masking keys are arbitrary. Commits have numbers for names, in any order in which parents come first; a new one has any name that is free.
- The configuration commit is a state machine over its steps rather than a method with loops: its properties are about interleavings. Waiting for the lock is any number of attempts; time is not modelled.
- Permissions, the creation of directories and the contents of temporary files are not modelled.
- Git: merges of one file are symbolic, renames and file modes are absent, ignored files are outside the model, other processes do not touch the repository meanwhile, and objects are not collected.
- WorkspaceSync.Checkout.RestoreStashedChanges: says nothing about the index, which the fallback without `--index` does not restore.
- WorkspaceSync.Checkout.SyncReusedWorktreeBranch: the two messages of a failed pull that mean a missing upstream are one arbitrary answer.
- Pruning, creating and removing worktrees, and copying the requirement files.
- The transform is over a ring: rounding, the Hann window and decibels are not modelled; the window is a parameter.
- Coverage numbers are unbounded integers and rounding is exact; the wrap-around of 64-bit sums is not modelled. Findings are sets: that they are reported sorted is not modelled. Listing packages, decoding manifests and splitting profile lines into fields are inputs.
- ScopedRun.ScopedMeasuresTheSame: assumes that the packages a test binary links are closed under imports, and that a binary reports only packages it links.
- Check rows: letters change case in ASCII only; the check lists that uncertain snapshots carry for diagnosis are not modelled. The files with the required names are an input.
- Admission: Python's equality of 1 and true, and values that are not numbers, are not modelled; JSON values are compared by structure. A failure that is reported after the state file was replaced counts as a call that took effect. Reading the status is not modelled.
- Graph searches: import paths are not empty; type checking, method sets and package loading give the graphs, and an alias is resolved to the type it stands for in one step.
- WebSocket: the handshake and TLS; a connection either writes everything or nothing; reserved bits are dropped, as the code does.
- Glob: patterns without a double star go to the matcher of the path library, which is a parameter; characters are single code units, and of regular expressions only the subset that the compiler writes is modelled.
- Race gate: that the progress messages may fail to be written is not modelled; the run patterns and the environment of the test command are not modelled.
- The agent command line, model registry, flag handling, timing and partition gates: sums and comparisons that would only add easy members.
