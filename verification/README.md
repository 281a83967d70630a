# Dev platform: a Dafny model of its core

A model of the parts of the dev platform that decide what is committed, who holds a job and what is paid for, with
proofs of what they promise, in four groups of modules.

**Diffs.** `DiffParser` reads git's unified diffs, `ApplyHunks` applies hunks to a pinned base, `CommitBuilder` builds
the commit, `DiffPolicy` and `DiffApply` are the checks in front of it, `DiffBundle` the form a diff is stored in. The
parser is proved against a printer of git's format (`DiffPrinter`, with hunks numbered as in the POSIX.1-2017 `diff`
utility, section "Diff -u or -U Output Format"), the applier against edit scripts (`EditScript`), the committed tree
against the changes the diff describes (`CommittedTree`), and all of them together from edits to the committed tree
(`DiffEndToEnd`).

**LLM proxy.** `Redactor` and `SseUsage` are the chunked redactor and usage reader, proved equal to their whole-buffer
forms; `LlmProxy` is the two delivery loops; `Budget` is the per-job accounting.

**Docker backend.** `Docker` is the backend against a daemon whose every answer is arbitrary; `DockerTrace` interleaves
teardown, reaping and renewal, and `DockerCalls` shows that the backend's calls are runs of it.

**Jobs.** `JobStore` and `Gates` have one guarded statement per SQL statement. `PhaseEngine`, `RunnerRoutes`,
`GateRoute`, `DevJobWorker`, `ClaimLoop` and `Finalizer` are the callers that send them. `GatedPipeline` and
`ApplyWorker` interleave the statements of all callers with crashes. The calls of the engine, the routes and the apply
worker are proved to be runs of `GatedPipeline`, applies to be runs of `ApplyWorker` beside any others (`ApplyRuns`),
and the claim loop to be a run of the steps it is bounded for. A crash drops what a process holds in memory and keeps
rows, gates and the forge.

Code that works step by step is a class or a method with a loop, proved equal to a function; the laws are lemmas about
that function. A protocol is a transition system whose steps are single statements or requests, and its laws hold for
every run.

## Where the code does something else than its comments or a naive reading

For each there is a theorem that says exactly when the expected behaviour holds, and a lemma, or a clause of a contract,
with an input for which it does not.

- A hunk without old lines is placed one line early unless it stands at the start of the file or right behind another
  hunk (`PrintedEdit.PrintedEditIff`, `PrintedEdit.InsertionLandsEarly`).
- A file without a final newline gains one when no hunk reaches its last line, also by a rename alone
  (`FinalNewline.PrintedFileIff`, `FinalNewline.RenameGainsNewline`).
- A file changed without hunks is misnamed when its unquoted path holds " b/" (`PrintedTokens.GitPairIff`,
  `PrintedTokens.MisreadName`).
- One carriage return at the end of a hunk line is lost (`DiffText.RoundTripIff`, `DiffText.CarriageReturnLost`).
- Inside a quoted path an unescaped character outside the basic multilingual plane is read as two replacement
  characters (`QuotedPath.QuoteTextRoundTrip`, `QuotedPath.AstralMisread`).
- A path that is deleted and added again, as a change of type is printed, is lost; two renames that swap their paths
  lose a file; an edited executable file becomes a regular one, which is a documented limit of the source
  (`CommittedTree.CommittedIff`, `CommittedTree.TypeChangeLosesThePath`, `CommittedTree.RenameSwapLosesAFile`,
  `CommittedTree.ExecutableBitLost`).
- "Never a blind re-create" holds only for daemons whose listings can be read after a lost answer; a failed read counts
  as absence (`Docker.ConfirmedIff`, `Docker.BlindRecreate`).
- The budget warning is once per budget, not once per job, if the tokens left can pay for both lines
  (`Budget.WarnsTwiceIff`, `Budget.TwoWarnings`), and the four-decimal cost column makes the cost triggers inexact
  (`Budget.EdgesExactIff`, `Budget.OddCallsMisreport`).
- Redaction depends on the chunking when a proper prefix of the secret continues the replacement text
  (`Redactor.ChunkingInvisibleIff`, `Redactor.ChunkingShows`), and a secret can come back through its own redaction
  (`Redactor.NoLeakIff`, `Redactor.SecretComesBack`).
- A stale phase result is discarded as far as the phase goes, but one that fails or finishes the job ends it wherever it
  is by then (`PhaseEngine.DelayedReport`, `PhaseEngine.LateFailureEnds`); a stale review leaves its note unless the
  note is there already, and can lower the attempt (`PhaseEngine.NoteThereIff`, `PhaseEngine.LateReviewLowersAttempt`).
- A retried apply that succeeds opens its pull request and leaves the job failed, for an ended job is never finalized
  again: an applied job is done exactly if it was not failed before (`DevJobWorker.DevJobWorker.ApplyJob`).
- A worker that lost its lease leaves a live job alone exactly if it had prepared the provision in time and the backend
  does not break; otherwise it ends the job, for ending one is not fenced by a lease (`ClaimLoop.LeftAloneIff`,
  `ClaimLoop.LostEarlyStillEnds`, `ClaimLoop.LostLaterStillEnds`).
- A job retried from the phase where another ended behind the human gate is gated like any other and never asks a human
  again: the approval is the other job's (`GatedPipeline.ImplementedOnlyIfApproved`,
  `GatedPipeline.ResumedWithoutItsOwn`).
- A crash between a gate's expiry and the cancellation of its job leaves the job waiting: only answered gates are
  recovered (`GateRoute.GateRoute.ResolveGate`, `GateRoute.ExpiredGateStrands`).

Assumptions about the forge: a tree request applies its entries in order, a later entry for the same path winning; a
ref that exists cannot be created again. UTF-8 decoding of path bytes is a parameter that undoes encoding.

## Model

| member | source | states |
|---|---|---|
| DiffParser.ParseUnifiedDiffDetailed | packages/plugin/src/policy/parseUnifiedDiff.ts:137-201 | the index loop over the lines, with its current file and its list of files, computes exactly the recursive reading `Parse` of the text, errors included |
| DiffParser.ConsumeHunk | packages/plugin/src/policy/parseUnifiedDiff.ts:271-347 | reading one hunk in place: the state gains the hunk and its counts and the index stops on the first line after it, or the typed structure error is the one `ReadBody` gives |
| DiffParser.CountedLines | packages/plugin/src/policy/parseUnifiedDiff.ts:288-328 | the loop with the two remaining counts stops exactly where the counts are used up; under-run and over-run are told apart |
| DiffParser.PullMarks | packages/plugin/src/policy/parseUnifiedDiff.ts:329-335 | the trailing markers, all of them, join the hunk |
| DiffParser.MarksCountNothing | packages/plugin/src/policy/parseUnifiedDiff.ts:317-318 | markers change neither side of a hunk nor its totals |
| DiffParser.LastDivider | packages/plugin/src/policy/parseUnifiedDiff.ts:396-398 | the greedy split: the last " b/" with something on both sides, or none |
| ParserSoundness.BodyIff | packages/plugin/src/policy/parseUnifiedDiff.ts:294-345 | a hunk is accepted exactly when some prefix of the lines has the declared old and new counts, reaches no line that can only come later and leaves nothing that looks like more of the body |
| ParserSoundness.ParseSound | packages/plugin/src/policy/parseUnifiedDiff.ts:137-201 | for every text: each header count matches its body, totals are the sums over the hunks, no line contains a line break, and an old path is only reported for a rename or copy to another path |
| ParserSoundness.HunkSound | packages/plugin/src/policy/parseUnifiedDiff.ts:271-347 | one accepted hunk keeps the totals of the file equal to the sums over its hunks |
| PrintedTokens.HeaderBack | packages/plugin/src/policy/parseUnifiedDiff.ts:91 | a printed hunk header, with counts of 1 left out, is read back to the same four numbers |
| PrintedTokens.PathBack | packages/plugin/src/policy/parseUnifiedDiff.ts:407-414 | every path, quoted when git quotes it and closed by a tab or not, is read back unchanged |
| PrintedTokens.SideBack | packages/plugin/src/policy/parseUnifiedDiff.ts:185-190 | a path on a "---" or "+++" line loses its side prefix, its tab and its quotes, and is never taken for /dev/null |
| PrintedTokens.GitPairIff | packages/plugin/src/policy/parseUnifiedDiff.ts:380-399 | a "diff --git" line with the same name twice gives the name back exactly when the name is quoted or holds no " b/" with something after it; otherwise both names read are wrong |
| PrintedTokens.PlainPairIff | packages/plugin/src/policy/parseUnifiedDiff.ts:396-397 | for unquoted names the greedy split falls on the right divider exactly for unsplit paths |
| PrintedTokens.SplitNameMisread | packages/plugin/src/policy/parseUnifiedDiff.ts:396-398 | a name with " b/" in it, shown by the header line alone: the line is split at the last divider, so that the new name is what follows it and the old one everything before |
| PrintedTokens.MisreadName | packages/plugin/src/policy/parseUnifiedDiff.ts:396-398 | for instance "x b/y" is read as "x b/y b/x" and "y" |
| DiffRoundTrip.HunksParsed | packages/plugin/src/policy/parseUnifiedDiff.ts:191-196 | any list of well-formed hunks, printed and followed by something else, is read back hunk by hunk |
| DiffRoundTrip.PreambleRead | packages/plugin/src/policy/parseUnifiedDiff.ts:164-190 | the extended header git prints for any change leaves the parser with that change, mode, names and sides |
| DiffRoundTrip.FileParsed | packages/plugin/src/policy/parseUnifiedDiff.ts:149-198 | one printed file, after any other file and before any other, is read as exactly that file |
| DiffRoundTrip.FinalizeSeen | packages/plugin/src/policy/parseUnifiedDiff.ts:349-372 | closing a file gives back the printed change, except that a file without hunks is named by its header line |
| DiffText.PrintParse | packages/plugin/src/policy/parseUnifiedDiff.ts:137-372 | parsing a printed diff gives every file, hunk and count back, up to one carriage return at the end of hunk lines and names that only an ambiguous header line carries |
| DiffText.RoundTripIff | packages/plugin/src/policy/parseUnifiedDiff.ts:137-372 | parse after print is the identity for precisely the diffs where no hunk line ends in a carriage return and every file without hunks can be named from its header line |
| DiffText.CarriageReturnLost | packages/plugin/src/policy/parseUnifiedDiff.ts:138-140 | an added line that ends in a carriage return is read without it |
| QuotedPath.ReadQuoted | packages/plugin/src/policy/parseUnifiedDiff.ts:420-450 | the reader returns the bytes of the token and the index right after its closing quote, or nothing when the quote never closes |
| QuotedPath.ReadEscape | packages/plugin/src/policy/parseUnifiedDiff.ts:426-443 | one escape: up to three octal digits cut to a byte, a letter, or any other code unit cut to a byte |
| QuotedPath.QuoteRoundTrip | packages/plugin/src/policy/parseUnifiedDiff.ts:416-450 | decoding any quoted byte sequence returns exactly those bytes, also when octal escapes are followed by digits, and stops right after the closing quote |
| QuotedPath.QuoteTextRoundTrip | packages/plugin/src/policy/parseUnifiedDiff.ts:444-447 | with non-ASCII characters left unquoted the path reads back exactly when none of them needs two UTF-16 code units |
| QuotedPath.UnitBytesIff | packages/plugin/src/policy/parseUnifiedDiff.ts:444-447 | the bytes read for such a path are its UTF-8 exactly when every character fits one code unit |
| QuotedPath.AstralMisread | packages/plugin/src/policy/parseUnifiedDiff.ts:444-447 | one unescaped character outside the basic plane is read as two replacement characters |
| ApplyHunks.ApplyHunks | packages/plugin/src/policy/parseUnifiedDiff.ts:211-259 | the in-place run over lines, cursor and marker flag equals the specification `Applied`: the new text, or the first mismatch with its file, hunk, expected and actual line |
| ApplyHunks.ApplyHunk | packages/plugin/src/policy/parseUnifiedDiff.ts:219-231 | one hunk: copy up to its start, then apply its body or fail with the error that decides the whole run |
| ApplyHunks.ApplyBody | packages/plugin/src/policy/parseUnifiedDiff.ts:231-254 | a body either fits the base at the cursor and moves it past all old lines, or fails at its first differing line |
| EditScript.AppliesIff | packages/plugin/src/policy/parseUnifiedDiff.ts:211-259 | hunks apply to a base exactly when an edit script with those hunks reads the base, and the output is what that script writes |
| EditScript.ScriptUnique | packages/plugin/src/policy/parseUnifiedDiff.ts:211-259 | there is only one such script |
| EditScript.LineCount | packages/plugin/src/policy/parseUnifiedDiff.ts:211-259 | output lines are base lines plus added minus deleted lines |
| PrintedEdit.PrintedEditIff | packages/plugin/src/policy/parseUnifiedDiff.ts:211-259 | an edit printed with POSIX hunk numbers and applied to its source gives its target exactly when every pure insertion that lands a line early inserts only copies of the line it overtakes |
| PrintedEdit.PrintedApplies | packages/plugin/src/policy/parseUnifiedDiff.ts:219-231 | what the applier makes of the printed hunks of any edit, harmless or not |
| PrintedEdit.ContextIsHarmless | packages/plugin/src/policy/parseUnifiedDiff.ts:221 | hunks that show an old line or stand at the very start are always placed right |
| PrintedEdit.InsertionLandsEarly | packages/plugin/src/policy/parseUnifiedDiff.ts:219-231 | a line inserted after another one and printed without context lands in front of it |
| FinalNewline.PrintedFileIff | packages/plugin/src/policy/parseUnifiedDiff.ts:211-259 | byte for byte: the applied text is the target text exactly when the edit is harmless and, if the new file lacks a final newline, its last line is in the last hunk |
| FinalNewline.MarkedDrops | packages/plugin/src/policy/parseUnifiedDiff.ts:237-239 | the markers of a printed body take the final newline away exactly when its new side ends the new file without one |
| FinalNewline.FileLinesOf | packages/plugin/src/policy/parseUnifiedDiff.ts:452-457 | splitting a text into lines undoes putting it together |
| FinalNewline.LandingPermutes | packages/plugin/src/policy/parseUnifiedDiff.ts:219-231 | misplaced or not, the output has exactly the lines of the target, with multiplicity |
| FinalNewline.RenameGainsNewline | packages/plugin/src/policy/parseUnifiedDiff.ts:253-258 | a file without a final newline that is renamed without a hunk gains one |
| FinalNewline.EditGainsNewline | packages/plugin/src/policy/parseUnifiedDiff.ts:253-258 | so does one whose first of two lines is edited without context |
| DiffEndToEnd.PrintParseApply | packages/plugin/src/policy/parseUnifiedDiff.ts:137-259 | additions, deletions, modifications, renames and copies, with or without hunks, modes and binary flags, printed and parsed: each readable change comes back exactly and no other does, and applying the hunks of a readable one to its old text gives its new text exactly if the edit is faithful |
| DiffEndToEnd.PrintedDiffCommitted | packages/plugin/src/githubForgeClient.ts:149-202 | the whole way from edits of a base to the committed tree: a path has the new text of its edit under the mode it should have exactly when the edit is faithful and the path survives the other files; every path no file writes is gone or as it was |
| DiffEndToEnd.ParsedLineCount | packages/plugin/src/policy/parseUnifiedDiff.ts:211-347 | for every parsed file whose hunks fit a base: output lines are base lines plus the file's additions minus its deletions, and all header counts match |
| Numstat.ParseNumstatEntries | packages/plugin/src/diffApplyService.ts:245-262 | the structured reader of the numstat text |
| Numstat.NumstatTotals | packages/plugin/src/diffApplyService.ts:271-287 | the totals reader of the numstat text |
| Numstat.ReadersAgree | packages/plugin/src/diffApplyService.ts:245-287 | both readers see the same files, additions and deletions in every text |
| DiffPolicy.AddedLinesOf | packages/plugin/src/policy/diffPolicyEngine.ts:357-365 | the added lines of all hunks, in order |
| DiffPolicy.AllScanned | packages/plugin/src/policy/diffPolicyEngine.ts:191-204 | the text scanned for secrets has exactly as many lines as the parser counted additions |
| DiffPolicy.HunksScanned | packages/plugin/src/policy/diffPolicyEngine.ts:357-365 | every added line of every hunk is scanned |
| DiffPolicy.VerdictIff | packages/plugin/src/policy/diffPolicyEngine.ts:292-306 | a diff is refused exactly when a denial fires, and held exactly when no denial but some gate fires and nobody approved it |
| DiffPolicy.ApprovalOnlyReleases | packages/plugin/src/policy/diffPolicyEngine.ts:95-107 | approving keeps every finding and turns only a held diff into an applied one |
| DiffPolicy.OverridesCannotUndeny | packages/plugin/src/policy/diffPolicyEngine.ts:61-70 | no override or approval makes a refused diff anything else, or an unrefused one refused |
| DiffApply.CheckPaths | packages/plugin/src/diffApplyService.ts:157-164 | the first path, in order of the files and new before old, that leaves the repository |
| DiffApply.NoEscapeIff | packages/plugin/src/diffApplyService.ts:157-164 | no path is reported exactly when every named path is inside the repository |
| DiffApply.DiffTotals | packages/plugin/src/diffApplyService.ts:233-241 | the totals of the parsed files |
| DiffApply.RunChecks | packages/plugin/src/diffApplyService.ts:140-186 | the checks in their order: parse, numstat, paths, policy |
| DiffApply.Apply | packages/plugin/src/diffApplyService.ts:140-226 | a failed check means the forge hears nothing; a pull request appears only together with its fresh branch, which carries exactly the checked files; every ending is covered |
| DiffApply.CommitAndOpen | packages/plugin/src/diffApplyService.ts:201-218 | with requests failing or answers lost anywhere, the only new ref is the job branch and the only new pull request is for it |
| DiffApply.IntegritySettled | packages/plugin/src/diffApplyService.ts:143-156 | the cross-check passes exactly when the policy's integrity rule has nothing to find |
| DiffApply.PrecheckMeans | packages/plugin/src/diffApplyService.ts:140-186 | what passes names no outside path, meets no denial and matches its numstat; an approved upload is applied or refused, never held again |
| CommitBuilder.Prescan | packages/plugin/src/githubForgeClient.ts:152-161 | a file is refused without any request exactly when some file that is not deleted is binary or declares a link mode |
| CommitBuilder.ReadPhase | packages/plugin/src/githubForgeClient.ts:163-181 | reads only; when it succeeds the plan is the specification's |
| CommitBuilder.WriteBlobs | packages/plugin/src/githubForgeClient.ts:183-193 | the entries name every upload and every removal in order |
| CommitBuilder.WritePhase | packages/plugin/src/githubForgeClient.ts:183-215 | when it succeeds there is one commit on the base whose tree is the base with the planned edits |
| CommitBuilder.ApplyDiff | packages/plugin/src/githubForgeClient.ts:149-228 | refused: no request; a file that does not fit: nothing written; the only ref that can appear is the fresh, well-formed job branch, and it carries the planned tree; history only grows |
| CommittedTree.CommittedPath | packages/plugin/src/githubForgeClient.ts:183-202 | the committed tree path by path: a deleted path is gone, else the last file that writes the path or has it as its rename source decides, else it is as in the base |
| CommittedTree.CommittedIff | packages/plugin/src/githubForgeClient.ts:149-202 | each path holds what the files that write it describe, is gone if files only delete or move it, and else is as in the base, exactly when files that write one path agree on it and the last of them keeps its mode, is deleted by no file and moved away by no later one |
| CommittedTree.ModeKeptIff | packages/plugin/src/githubForgeClient.ts:337-347 | a file keeps its mode exactly for declared regular or executable modes, new files without a mode, and files that were regular |
| CommittedTree.WrittenOnceIff | packages/plugin/src/githubForgeClient.ts:149-202 | the same for a diff that writes each path once, with a condition on its paths, kinds and modes only |
| CommittedTree.RenameChainCommitted | packages/plugin/src/githubForgeClient.ts:183-193 | a file moved aside for another is committed right |
| CommittedTree.RenameSwapLosesAFile | packages/plugin/src/githubForgeClient.ts:183-193 | two renames that swap their paths leave only one of the two files |
| CommittedTree.TypeChangeLosesThePath | packages/plugin/src/githubForgeClient.ts:189-193 | a path that is deleted and added again, as git prints a change of type, is lost |
| CommittedTree.ExecutableBitLost | packages/plugin/src/githubForgeClient.ts:57-65 | editing an executable file without a mode line commits it as a regular one |
| JobBranch.PinnedBranchAccepted | packages/plugin/src/devJobWorkerSeams.ts:106-122 | the branch pinned for any job id and source reference is accepted by the forge client |
| Forge.Repository.CreateRef | packages/plugin/src/githubForgeClient.ts:216-227 | a ref that exists is never moved; a lost answer may hide a created ref |
| Forge.Repository.CreatePr | packages/plugin/src/githubForgeClient.ts:230-248 | at most one pull request per branch, also when the answer is lost |
| Redactor.StreamRedactor.Push | packages/plugin/src/llmProxy.ts:221-232 | one chunk: what is emitted and what is held back |
| Redactor.StreamRedactor.Flush | packages/plugin/src/llmProxy.ts:234-238 | the held-back tail |
| Redactor.StreamEqualsWhole | packages/plugin/src/llmProxy.ts:211-239 | for a separable secret the pushed outputs plus the flush equal the redaction of the whole body, for every chunking |
| Redactor.ChunkingInvisibleIff | packages/plugin/src/llmProxy.ts:195-239 | chunking is invisible for all bodies exactly when no proper prefix of the secret continues the replacement text |
| Redactor.ChunkingShows | packages/plugin/src/llmProxy.ts:195-239 | a secret that begins with a closing bracket, in two chunks: the client can tell |
| Redactor.BracketFreeIsSeparable | packages/plugin/src/llmProxy.ts:199 | a secret without brackets is separable |
| Redactor.NoLeakIff | packages/plugin/src/llmProxy.ts:195-201 | for every secret: no body leaks it through its own redaction exactly when it is no part of the replacement text, does not begin with the end of one, and cannot go on with one after text that is not redacted in front of a match |
| Redactor.SecretComesBack | packages/plugin/src/llmProxy.ts:195-201 | a secret that begins with a closing bracket, followed by its own rest, is in the output |
| Redactor.StreamCleanIff | packages/plugin/src/llmProxy.ts:195-239 | however the body is cut, the client gets the redaction of the whole body without the secret in it, exactly for those secrets |
| Redactor.PlainLeakyIff | packages/plugin/src/llmProxy.ts:199 | a secret without brackets leaks only as a part of the word REDACTED |
| Redactor.StepKeeps | packages/plugin/src/llmProxy.ts:221-232 | after every chunk, emitted plus held-back bytes stand for all bytes fed so far |
| LlmProxy.StreamThrough | packages/plugin/src/llmProxy.ts:561-598 | the stream-through loop delivers the redacted stream and meters the whole text |
| LlmProxy.MeteredEnforced | packages/plugin/src/llmProxy.ts:656-757 | the enforced loop takes chunks up to the ceiling, decides on the usage of exactly those, and delivers nothing when the budget is exceeded |
| LlmProxy.TakeChunk | packages/plugin/src/llmProxy.ts:561-571 | one chunk keeps metering and redaction in step with everything received |
| LlmProxy.MeterJson | packages/plugin/src/llmProxy.ts:589-596 | a body that is not a stream is metered once, as a whole |
| LlmProxy.DeliveredIsClean | packages/plugin/src/llmProxy.ts:195-239 | for every key: what the loops deliver is the redaction of the whole body and free of the key for all bodies and chunkings, exactly when the key is not leaky |
| SseUsage.UsageAccumulator.ApplyUsage | packages/plugin/src/llmProxy.ts:256-275 | the four counters, each replaced only by a number |
| SseUsage.UsageAccumulator.Ingest | packages/plugin/src/llmProxy.ts:278-287 | start and delta events update the counters, others do not |
| SseUsage.UsageAccumulator.Drain | packages/plugin/src/llmProxy.ts:292-309 | consuming complete events in place equals reading the whole buffer |
| SseUsage.CollectData | packages/plugin/src/llmProxy.ts:297-300 | the trimmed data lines of a block, in order |
| SseUsage.ChunkingIrrelevant | packages/plugin/src/llmProxy.ts:292-309 | for every chunking: the same usage, the same leftover, and no blank line in the leftover |
| SseUsage.DrainedIsBlocks | packages/plugin/src/llmProxy.ts:292-309 | draining is feeding the blocks closed by a blank line, one after the other |
| SseUsage.BlocksPartition | packages/plugin/src/llmProxy.ts:294-296 | the buffer is its closed blocks followed by the leftover |
| SseUsage.LastWriterWins | packages/plugin/src/llmProxy.ts:256-287 | each counter ends as the last number any event reported for it |
| Budget.UsageStore.Accumulate | packages/plugin/src/devJobStore.ts:885-915 | one statement bumps the counters of one row and reads the new position and the budgets in force |
| Budget.Meter | packages/plugin/src/llmProxyAccounting.ts:146-240 | the answer, the finalize attempt and the warning for one call, and that nothing else changes |
| Budget.EdgeOnce | packages/plugin/src/llmProxyAccounting.ts:130-132 | no threshold is crossed by two calls of a run |
| Budget.CostEdgeIff | packages/plugin/src/llmProxyAccounting.ts:130-132 | a cost threshold is crossed by some call exactly when the run climbs past it |
| Budget.ExceededStays | packages/plugin/src/llmProxyAccounting.ts:188-202 | once a call answers exceeded, every later billable call does |
| Budget.FirstExceeded | packages/plugin/src/llmProxyAccounting.ts:188-202 | the first exceeded call overshoots each budget by less than its own delta |
| Budget.WarnsOncePerBudget | packages/plugin/src/llmProxyAccounting.ts:204-230 | each budget warns at most once in a run |
| Budget.AtMostTwoWarnings | packages/plugin/src/llmProxyAccounting.ts:204-230 | no three calls of a run warn |
| Budget.WarnsTwiceIff | packages/plugin/src/llmProxyAccounting.ts:204-230 | when calls cost at most a given rate a token: some run warns twice exactly when there is a token budget, both warning lines are positive and still ahead, the cost line lies below the cost budget, and the tokens left below the token budget reach the token line and pay for the cost line in two calls |
| Budget.TwoWarnings | packages/plugin/src/llmProxyAccounting.ts:204-230 | a job with both budgets that reads 800 000 tokens and writes 32 000, at prices of the table, is warned on both calls |
| Budget.OneWarning | packages/plugin/src/host/usageTelemetry.ts:150-170 | a cost budget the token budget can never pay for, at the highest price of the table, adds no second warning |
| Budget.EdgesExactIff | packages/plugin/migrations/0022_dev_platform.js:66 | with the stored four-decimal column a run of calls reports each cost threshold once if it passes it and never otherwise, for all thresholds, exactly when every call costs a whole number of cells |
| Budget.OddCallsMisreport | packages/plugin/migrations/0022_dev_platform.js:66 | a call that rounds down reports a threshold the column stood at already, one that rounds up passes a threshold unreported |
| Budget.StoredTotalIff | packages/plugin/migrations/0022_dev_platform.js:66 | the column tells the true spend after every call of a run exactly when every call costs a whole number of cells |
| Budget.SmallCallsInvisible | packages/plugin/migrations/0022_dev_platform.js:66 | a run leaves the column where it was exactly when each of its calls costs less than half a cell |
| Docker.DockerBackend.Provision | packages/plugin/src/dockerBackend.ts:228-281 | the retry loop, against any answers, makes exactly the exchanges and the outcome of the specification, and tracks the job only on success |
| Docker.DockerBackend.Terminate | packages/plugin/src/dockerBackend.ts:294-329 | one delete; the job is dropped only on a 2xx or 404, and its lease is forfeit from the request on; a foreign or malformed handle sends nothing |
| Docker.DockerBackend.Reap | packages/plugin/src/dockerBackend.ts:442-465 | only jobs a readable listing lacks are dropped and returned; an unreadable one drops nothing |
| Docker.DockerBackend.RenewLeases | packages/plugin/src/dockerBackend.ts:479-508 | every tracked job that is not being torn down is renewed once, nothing else is, and only lease times change |
| Docker.DockerBackend.Adopt | packages/plugin/src/dockerBackend.ts:349-358 | a stored handle is taken back exactly when it is complete, of this backend and of this job |
| Docker.DockerBackend.Rehydrate | packages/plugin/src/dockerBackend.ts:384-431 | the tracked jobs after a restart, and how many rows were adopted, skipped and corrected |
| Docker.RehydratedAt | packages/plugin/src/dockerBackend.ts:384-431 | after a restart exactly the tracked jobs and those with an owned handle are tracked: with what the daemon lists last for the job, else with the handle of its first owned row |
| Docker.ErrorBits | packages/plugin/src/dockerBackend.ts:664-747 | only 429 and 503 are retryable, only a failed clean-up keeps the handle, only a reply that never came leads to another create |
| Docker.RetryableProven | packages/plugin/src/dockerBackend.ts:228-281 | a retryable error is thrown only right after a listing, read after the failed create, that lacks the job |
| Docker.CreatesSpaced | packages/plugin/src/dockerBackend.ts:236-273 | between two creates there is exactly one listing, and unless it could not be read it lacks the job; the number of exchanges is bounded |
| Docker.HandleFromLastAnswer | packages/plugin/src/dockerBackend.ts:228-281 | a returned handle is what the daemon's last answer says: the create, or a listing that shows the job |
| Docker.ConfirmedIff | packages/plugin/src/dockerBackend.ts:236-244 | every re-create is preceded by a confirmed absence for exactly those daemons that give a readable listing after each run of lost answers to creates |
| Docker.BlindRecreate | packages/plugin/src/dockerBackend.ts:236-244 | a daemon that loses a create's answer and then cannot be read is asked to create the job again |
| DockerTrace.NoRenewalWhilePending | packages/plugin/src/dockerBackend.ts:479-508 | in every interleaving no renewal is sent for a job whose teardown was requested before, unless it was proven gone in between |
| DockerTrace.TrackedStays | packages/plugin/src/dockerBackend.ts:442-465 | in every interleaving a tracked job stays tracked until a delete is proven or a listing lacks it |
| DockerTrace.AskedStays | packages/plugin/src/dockerBackend.ts:294-329 | a requested teardown keeps the lease forfeit until the job is proven gone |
| DockerCalls.Perform | packages/plugin/src/dockerBackend.ts:228-508 | whatever the backend is asked: a call that is alone is a run of the events the interleavings are made of |
| DockerTrace.PassRun | packages/plugin/src/dockerBackend.ts:479-508 | a renewal pass visits every tracked job once and changes neither collection |
| Phases.TableFollowsOrder | packages/plugin/src/pipeline/transitions.ts:63-130 | for every reported phase: every advance leads to the next phase of the order, the gate is entered only from clarify and left only for implement, the single way back is review to implement, and a job succeeds only at its last phase |
| Phases.RetryIff | packages/plugin/src/pipeline/reviewLoop.ts:71-125 | changes are asked for again exactly when a finding blocks, the complaints differ from the last round and attempts are left; approval is given exactly without blocking findings |
| Phases.OrderDoesNotMatter | packages/plugin/src/pipeline/reviewLoop.ts:83-89 | the order of the findings never changes the decision |
| PhaseEngine.PhaseEngine.HandlePhaseResult | packages/plugin/src/pipeline/phaseEngine.ts:102-214 | for any row the route may have read, however old: a report for another phase leaves no trace, a stale answer changes the review note at most, an accepted one moves the row as the table decides, no other job changes, and everything sent is a run of the gated pipeline |
| PhaseEngine.PhaseEngine.ParkAtGate | packages/plugin/src/pipeline/phaseEngine.ts:182-206 | clarify leads to a parked job and a waiting gate that pins the plan stored last with its hash; a gate that is closed between insert and re-read leaves the job at the human phase without one |
| PhaseEngine.ReportInSync | packages/plugin/src/pipeline/phaseEngine.ts:102-214 | a report handled against the current row of a live job is never stale, every directive leaves the shim where the row is, and attempts and phases left fall lexicographically |
| PhaseEngine.RunsInSync | packages/runner-shim/src/phaseLoop.ts:147-204 | in every run the shim's phase and attempt equal the row's after each next directive, with at most two bounces from review to implement |
| PhaseEngine.DelayedReport | packages/plugin/src/pipeline/phaseEngine.ts:102-214 | a report for a phase the job has left moves no phase, ends a live job exactly when it would have ended it then, and leaves no trace exactly when it ends nothing and the note of its review is there already |
| PhaseEngine.NoteThereIff | packages/plugin/src/devJobStore.ts:535-541 | the unfenced note of a review changes nothing of a live job exactly when the review approved or the row has that attempt and those complaints already |
| PhaseEngine.LateReviewLowersAttempt | packages/plugin/src/pipeline/phaseEngine.ts:131-138 | a review of the first round handled in the third sets the attempt back, so that the job may be bounced once more |
| PhaseEngine.EndedStays | packages/plugin/src/devJobStore.ts:535-541 | no report, however late, touches a job that has ended |
| PhaseEngine.LateFailureEnds | packages/plugin/src/pipeline/phaseEngine.ts:148-160 | a failed implement report handled when the job is in review already ends it |
| PhaseEngine.EngineRefines | packages/plugin/src/pipeline/phaseEngine.ts:102-214 | the statements of an accepted report, with gate events in between, are a run of the gated pipeline |
| RunnerRoutes.RunnerRoutes.GetSpec | packages/plugin/src/routes/devRunnerApi.ts:350-368 | the runner gets its job and makes it running exactly while it is provisioning or running; an ended job is never revived |
| RunnerRoutes.RunnerRoutes.PostResult | packages/plugin/src/routes/devRunnerApi.ts:573-624 | whatever was read: an ended job stays as it ended, a live one goes on to the apply with its diff or ends as reported, and a diff that is missing or not its own changes nothing |
| RunnerRoutes.RunnerRoutes.PostPhaseResult | packages/plugin/src/routes/devRunnerApi.ts:632-680 | only a runner at work reaches the engine, and its answer is the engine's |
| RunnerRoutes.RunnerRoutes.RunPhasedShim | packages/runner-shim/src/phaseLoop.ts:147-204 | the shim's loop against the route, whatever the phases report and others do to the job: it exits 0 only with the job parked or done, it ends once others leave the phase and the review note of the job alone (without that it need not), and its bounces from review to implement are at most the attempts left plus two for every round in which they did not |
| JobStore.DevJobStore.ClaimNextQueued | packages/plugin/src/devJobStore.ts:342-359 | the oldest queued job that no other transaction has locked is claimed under the fresh lease, or there is none |
| JobStore.DevJobStore.Insert | packages/plugin/src/devJobStore.ts:245-277 | a new row is queued, or waiting at its gate from the start, without lease or handle |
| JobStore.DevJobStore.ReleaseClaim | packages/plugin/src/devJobStore.ts:373-386 | a claim goes back only under its lease, while provisioning and without a handle |
| JobStore.DevJobStore.SetRunnerHandle | packages/plugin/src/devJobStore.ts:544-551 | a handle is attached only under the lease |
| JobStore.DevJobStore.FinishTerminal | packages/plugin/src/devJobStore.ts:982-1019 | only a live job is flipped, and the flag says whether this call did it |
| JobStore.LeasesHold | packages/plugin/src/devJobStore.ts:342-551 | in every interleaving queued and waiting jobs hold no lease and no handle, provisioning and running jobs hold a lease, and no lease is in two rows |
| JobStore.SupersededForever | packages/plugin/src/devJobStore.ts:373-386 | a superseded lease stays superseded forever, and a write with it changes nothing |
| JobStore.OnlyParkLeavesTerminal | packages/plugin/src/devJobStore.ts:485-490 | the only statement that leaves a terminal status parks a failed apply |
| ClaimLoop.Worker.ClaimAndProvision | packages/plugin/src/devJobWorker.ts:323-338 | the loop ends, claims at most the free slots, never lifts the number of jobs with a runner over the limit or what it was, stops early only when a claim fails or nothing unlocked is queued, and is a run of the steps of one worker process |
| ClaimLoop.Worker.ProvisionOne | packages/plugin/src/devJobWorker.ts:343-425 | whatever others do meanwhile: the claimed job gets its runner, goes back to the queue or ends, a runner whose lease was lost is torn down, no claim is left provisioning without a runner, and without the lease the job is left alone exactly as `ClaimLoop.LeftAloneIff` says |
| ClaimLoop.LeftAloneIff | packages/plugin/src/devJobWorker.ts:363-423 | a worker that has lost its lease leaves the job alone exactly when the job has ended anyway, or the provision was prepared in time and the backend did not break |
| ClaimLoop.LostEarlyStillEnds | packages/plugin/src/devJobWorker.ts:363-371 | a lease that was lost before the provision was prepared: the job is ended under its new holder |
| ClaimLoop.LostLaterStillEnds | packages/plugin/src/devJobWorker.ts:376-392 | a job that was parked at its human gate while the backend worked is failed when the backend breaks |
| ClaimLoop.NeverOverTheLimit | packages/plugin/src/devJobWorker.ts:323-338 | with one worker process provisioning plus running jobs never exceed the limit, whatever happens between two steps of the loop and across restarts |
| ClaimLoop.OnlyClaimsOccupy | packages/plugin/src/devJobWorkerSeams.ts:36-41 | no other statement occupies a slot |
| Gates.DevJobGateStore.Open | packages/plugin/src/pipeline/gateStore.ts:131-162 | opening returns the job's waiting gate, new exactly when there was none; nothing (the source throws) exactly when the one it ran into was closed before it was read back |
| Gates.DevJobGateStore.Resolve | packages/plugin/src/pipeline/gateStore.ts:200-214 | a gate is returned exactly when this call closed it |
| Gates.DevJobGateStore.Expire | packages/plugin/src/pipeline/gateStore.ts:241-249 | a gate is returned exactly when this call closed it |
| Gates.DevJobGateStore.CancelForJob | packages/plugin/src/pipeline/gateStore.ts:217-224 | the job's waiting gate, if any, is withdrawn |
| Gates.DevJobGateStore.HasApprovedApplyGate | packages/plugin/src/pipeline/gateStore.ts:185-193 | whether some diff-policy gate of the job was approved |
| Gates.GatesCloseOnce | packages/plugin/src/pipeline/gateStore.ts:131-249 | in any race a job never has two waiting gates, a gate is closed by exactly one event and never changes again |
| Gates.ApprovalStays | packages/plugin/src/pipeline/gateStore.ts:185-193 | an approval that was given stays given |
| GatedPipeline.ImplementedOnlyIfApproved | packages/plugin/src/wireDevPlatform.ts:626-650 | in every reachable state a gated job is past the human gate only if a review gate was approved: its own, or that of the job it was resumed from behind the gate, unless that one was not gated; a job not resumed there was re-queued exactly once for it, and no gate has two sections in a brief, however often callbacks are driven again |
| GatedPipeline.ResumedWithoutItsOwn | packages/plugin/src/routes/devPlatform.ts:281-319 | a job resumed at implement is past the gate without a gate of its own |
| GatedPipeline.RetryJob | packages/plugin/src/routes/devPlatform.ts:281-319 | a retry is refused for a live job; it adds one queued job without a lease, at the start or at the phase the old one ended in, changes no other, and is a run of the pipeline |
| GatedPipeline.CreateJob | packages/plugin/src/triggers/triggerJobService.ts:153-166 | a new job starts queued at analyze or waiting at the human gate, changes no other, and is a run of the pipeline |
| GatedPipeline.EngineStopsAtGate | packages/plugin/src/pipeline/phaseEngine.ts:102-214 | no phase result carries a gated job past the human gate |
| GatedPipeline.StepKeeps | packages/plugin/src/wireDevPlatform.ts:626-689 | every step of engine, route, deadline, worker and crash keeps the invariant |
| GatedPipeline.CallsKeep | packages/plugin/src/wireDevPlatform.ts:626-689 | through any sequence of calls of triggers, retries, engine, runner routes, gate route, deadline and apply worker from an empty store, no gated job is past the human gate without a human having spoken for it or for the job it was resumed from |
| GateRoute.DrivenTwice | packages/plugin/src/routes/devPlatformGates.ts:64-71 | driving the side effects of a gate again changes nothing, whatever became of the job in the first run |
| GateRoute.ApprovalSendsOn | packages/plugin/src/wireDevPlatform.ts:626-643 | an approved gate sends its parked job on: queued at implement for its next provision without lease or handle, with exactly one section of the gate in its brief |
| GateRoute.RejectionEnds | packages/plugin/src/wireDevPlatform.ts:647-650 | a rejected gate cancels its job, with exactly one section |
| GateRoute.LateRedriveHarmless | packages/plugin/src/routes/devPlatformGates.ts:167-183 | driving an old gate again while its job waits at a later one changes nothing |
| GateRoute.ExpiredGateStrands | packages/plugin/src/wireDevPlatform.ts:675-689 | after a crash between a gate's expiry and the cancellation neither a caller nor the deadline moves the waiting job |
| GateRoute.GateRoute.DriveSideEffect | packages/plugin/src/routes/devPlatformGates.ts:64-71 | a review gate's job is driven as its stored status says; an approved upload ends with one pull request or a failed job, and driven again nothing happens |
| GateRoute.GateRoute.ResolveGate | packages/plugin/src/routes/devPlatformGates.ts:113-183 | a caller resolves a gate exactly when this call closed it, recovers it exactly when it was answered before and its job still waits, and whatever is refused changes nothing |
| GateRoute.GateRoute.DeadlineTick | packages/plugin/src/wireDevPlatform.ts:675-689 | every waiting gate that was due is expired and its job has ended; no other gate and no other job has changed |
| ApplyWorker.OneApplyOnePr | packages/plugin/src/devJobWorker.ts:428-575 | in every interleaving at most one apply of a job is in flight, a job is guarded exactly while one is, and a branch never gets a second pull request |
| ApplyWorker.NoNewGateAfterApproval | packages/plugin/src/devJobWorker.ts:528-566 | an apply that has not looked at the gates when a diff-policy gate of its job is approved, or starts later, never ends in a new gate, whatever other applies are doing |
| ApplyWorker.StepPrsSound | packages/plugin/src/devJobWorker.ts:512-554 | only the apply that created a branch may open its pull request, once |
| DiffBundle.SplitBundleIff | packages/plugin/src/devJobWorkerPolicy.ts:23-27 | splitting the stored bundle undoes bundling exactly when the diff holds no marker line |
| DiffBundle.PrintedBundleSplits | packages/plugin/src/devJobWorkerPolicy.ts:11-18 | no diff git prints, whatever it changes, holds a marker line: with any numstat it is split back into both halves |
| DevJobWorker.DevJobWorker.ApplyJobInner | packages/plugin/src/devJobWorker.ts:500-575 | an apply ends with a pull request, a parked job at a waiting gate, or a failed job, and changes no other row; an approved one is never held |
| DevJobWorker.DevJobWorker.ApplyJob | packages/plugin/src/devJobWorker.ts:465-477 | a second apply of a job in flight changes nothing, and the guard is released however an apply ends; a retry that succeeds after a failure opens its pull request and leaves the job failed; an uninterrupted apply is a run of the steps of `ApplyWorker`, whatever other applies are in flight |
| DevJobWorker.DevJobWorker.ResumeGatedApply | packages/plugin/src/devJobWorker.ts:488-498 | an approved apply ends done with its pull request or failed; a resume that comes too late or twice does nothing; it is a run of the steps of `ApplyWorker`, too |
| ApplyRuns.ApplyAmongOthers | packages/plugin/src/devJobWorker.ts:465-575 | whatever jobs are guarded and whatever applies are in flight beside it: what an uninterrupted apply does is a run of the interleaved steps |
| ApplyRuns.AmongOthersRefines | packages/plugin/src/devJobWorker.ts:465-575 | such runs are runs of the gated pipeline |
| DevJobWorker.DevJobWorker.OnGate | packages/plugin/src/wireDevPlatform.ts:293-334 | a held upload parks its job and leaves a waiting gate over its findings |
| Finalizer.FinalizeDevJobDetailed | packages/plugin/src/finalizeDevJob.ts:137-202 | a no-op on a terminal or missing job; otherwise, whatever happens between read and guarded flip, the batch of side effects runs exactly if this call did the flip, with the handle read before it or else attached since |
| Finalizer.SideEffects.RevokeAll | packages/plugin/src/finalizeDevJob.ts:54-62 | every revoker is tried once, in order, whether or not others fail |
| Finalizer.FlipsBalance | packages/plugin/src/finalizeDevJob.ts:137-202 | with any number of racing finalizers flips minus parks out of failed is 1 while the job is terminal and 0 otherwise; each flip runs each part of its batch at most once and in order, a call that lost runs none, and a teardown takes a handle |
| Finalizer.NoCrashNoLoss | packages/plugin/src/finalizeDevJob.ts:167-199 | without a crash a finalizer that flipped the job and is done has sent its event and its revocations, and a teardown exactly if there was a handle |

## Left out

- HTTP, fetch, timeouts, body caps and routing: I/O; a reply, its loss or a request that never arrives is a parameter.
- The Postgres driver and row mapping: each statement is its guard and its update, and one statement is one step.
- DiffParser.ParseUnifiedDiffDetailed: numbers in hunk headers are unbounded, JavaScript doubles are not; lone UTF-16 surrogates do not occur in the model's strings.
- Numstat.NumstatTotals: counts are unbounded integers, not doubles.
- DiffPolicy.VerdictIff: the secret scanner, the globs and the manifest list are uninterpreted; the sorting of reported paths and the detail texts are not modelled, and the engine is handed the parsed files instead of parsing the same text a second time.
- Budget.Meter: cost is a real number; of the price table only its highest price matters, as a rate, its floating-point arithmetic is not modelled, and a failing ledger, event or finalize call changes nothing the model shows.
- PhaseEngine.PhaseEngine.HandlePhaseResult: within one call nothing else writes rows; statements of others between two of its own are steps of `GatedPipeline`. The fingerprint is the multiset of blocking complaints instead of a hash of their joined keys.
- RunnerRoutes.RunnerRoutes.RunPhasedShim: its wall clock and its cancel flag only kill it between phases, at any round.
- RunnerRoutes.RunnerRoutes.GetSpec: the token check and the rest of the spec are not modelled.
- DevJobWorker.DevJobWorker.ApplyJobInner: audit artifacts and the texts of title and body are left out; within one call others act only while a gate is opened.
- GatedPipeline.ImplementedOnlyIfApproved: a brief is the list of gates with a section in it; the search for a marker in the brief's text is membership in that list. Jobs start at `analyze` or `await_human`, or as the retry of an ended one, in their first provision; rows are never deleted. What happens after the phase reaches `pr` is any other statement. `origin` of a row is a history variable for the theorem, no column.
- JobStore.LeasesHold: leases are numbers never used before instead of random UUIDs.
- ApplyWorker.OneApplyOnePr: one commit and one pull request are single steps there; what they do is in `DiffApply` and `DevJobWorker`.
- ClaimLoop.NeverOverTheLimit: one worker process, as deployed.
- DockerTrace.TrackedStays: a listing and its comparison are one step, as the worker runs reap and provision one after the other.
- Docker.DockerBackend.Provision: backoff times and the renewal timer; loading of TTL settings.
- The Fly and local process backends, the device and manifest flows and the token registry: easier versions of the same patterns.
- The UI, configuration, plugin activation, retention, prompts, trackers and triggers: wiring without strong properties.
- SHA-256, token minting, JWT signing, WHATWG URL parsing and the egress allowlist: behaviour of libraries that are not part of this model.
