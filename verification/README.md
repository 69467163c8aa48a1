# Orchestrator control plane: a Dafny model

This project models the concurrent protocols and the data pipeline of the GPT/Claude orchestrator in
`lib/ai-orchestrator` and proves what they guarantee. `dafny verify dfyconfig.toml` checks all of it.

| files | part of the system |
|---|---|
| `JobQueue`, `Heartbeat`, `LeaseProtocol`, `LeaseTheorems`, `LeaseFinality` | the leased job queue, lease renewal, and many workers over one queue as a timed state machine: exclusion, who writes an outcome, and when an outcome is final |
| `SandboxRunner`, `JobService`, `Drain` | one sandbox run, a claimed job from payload to owner-guarded final write, the worker's claim-until-empty loop |
| `LineEndings`, `PatchPaths`, `PatchValidator`, `PatchApplier`, `PatchBranch`, `PrFlow` | a patch from validation through the sandbox and the gates to a branch |
| `Orchestration`, `Orchestrator`, `PromptProvenance`, `AsyncOrchestrator`, `OrchestrationRefinement`, `OrchestrationSafety`, `TestJobWait` | the review loop, its resumable form, and the refinement between them |
| `ResumeScheduler`, `ResumeProtocol` | the cron tick and its resume lock, alone, and with the start, many ticks, user-facing resumes and cancels of a run at once |
| `JsStrings`, `BraceText`, `JsonExtract` | extraction of a JSON object from model output, against a JSON printer (RFC 8259) |
| `RateLimit`, `RedisRateLimit`, `Utf8`, `CommandRunner` | the sliding-window limiter and its two stores; UTF-8 decoding in pieces (RFC 3629), output capture and settlement of a child process |
| `Prelude`, `JobTypes` | shared vocabulary |

## How it is modelled

Objects that the program updates in place are classes; each method is proved against a value function of the
old state, and lemmas state what that function guarantees. The concurrent parts are state machines: a run
is a list of actions, every repository call that others can interfere with is an action, and theorems hold for all lists.
Methods and theorems share the value functions; what the central operations answer is therefore also stated
without them, in columns of the rows, fields of the request, messages, characters or times.

Time is an integer number of milliseconds. Identifiers are numbers of which only equality is used. Texts are
sequences of characters. Digests are functions, injective where a theorem says so. Model adapters
are one function of the whole history of calls, so they may be stateful. Redaction, the content scan, the
secret patterns and the command allow-list are parameters. The file tree maps path segments to contents.

A few properties hold only under a condition. Those are stated as an equivalence, and for every choice of the
parameters there is a run that shows what happens without the condition:

- Executions exclude each other in every run with beats on time and at most `k` log lines refused in a row exactly when
  start delay plus (threshold + k) times interval fits in the lease (a threshold below 1 counts as 1), whether or not they share worker ids
  (`ExclusiveIffLeaseFits`). A failing beat is counted before its log line and judged after it, so when the log line is
  refused the fail-closed abort does not happen (`SilentSinkNeverAborts`, `UnloggedOutageIsOvertaken`), although
  `heartbeat.ts` describes itself as fail-closed.
- The guards compare the lease owner only, and the ownership read that ends a job is one call and the final write another. No run
  lets a stale execution write a result exactly when every execution has a worker id of its own and nothing comes between
  the two calls (`ResultsAreSafeIff`, `StaleFinishClobbers`). `scripts/ai-orchestrator-worker.ts` uses one id for all its polls, and
  nothing keeps the two calls together, although `job-service.ts` (line 373) promises never to overwrite a reclaimed job. What does
  hold of the program: with beats on time and a lease that fits, an execution that has not been told to stop is the last
  claimant when it ends (`LiveEndingsAreByClaimants`). On time means until the end: between the last beat and the final write, when
  the heartbeat has stopped, no more than an interval passes.
- With worker ids of their own, a stale execution can still record an outcome exactly when its payload cannot be parsed or it has
  read the owner before the newer claim (`StaleExecutionsRecordIff`, `RejectionClobbers`).
- An ended row is final exactly when no unfinished execution may still write it (`EndedRowIsFinalIff`,
  `EndedStatusIsFinalIff`): a job cancelled while queued stays cancelled (`CancelledWhileQueuedIsFinal`), one cancelled or
  swept while running can still pass (`CancelledOrSweptCanStillPass`).
- Only the status is lowered when a lease is lost or cannot be renewed: the row says `failed` and its result `passed: true`
  exactly when the sandbox run passed and its lease failed (`JobService.ProcessClaimedJob`, `LoweredPassIsRecorded`).
- The sandbox and the branch apply the same patch with the same tree; the branch accepts it exactly when no file
  overwrites an earlier effect on its path (`TestedTreeIsProposedTree`, `RepeatedPathDiverges`).
- A file named by blanks passes validation and is refused by the worker (`BlankPathPassesValidation`).
- The resumable orchestrator asks what the loop asks exactly when at least one round is allowed and redaction keeps the patch of
  each tested round, and plan and critique when another round follows (`AsyncRefinesSync`, `NoRoundsDiffer`).
- Every job result is consumed once in every run exactly when the longest resume fits in the lock's time to live and no
  user-facing resume, which takes no lock, runs beside the ticks (`ConsumedOnceIffLockFits`).
- A cancelled run stays cancelled exactly when its start is over, no resume is between its read of the run and its advance,
  and no failing tick is about to write back a row it read before the cancel (`CancelledIsFinalIff`). Each of these overwrites
  a cancel in some run: the advance of a review (`CancelIsOverwritten`), a resume between its two reads
  (`CancelBetweenReadsIsOverwritten`), which the cancel itself can let through by ending the job first
  (`CancelEndsTheJobItOverlooks`), the start (`CancelDuringStartIsOverwritten`), and the note of an error
  (`CancelIsUndoneByErrorNote`).
- A rejected request still counts: a request is accepted exactly when the one `limit` places before it has left the window, so
  waiting out Retry-After promises admission only for windows of at most a second (`AcceptedIff`, `RetryPromisesIff`).
- Output chunks are decoded one by one. The captured text is that of the bytes exactly when no chunk ends inside a character
  (`CaptureIgnoresChunking`, below the limit); otherwise a character is captured as replacement characters
  (`SplitCharacterIsLost`).
- A CRLF checkout keeps the drift hash exactly when the text has no CRLF of its own (`CheckoutKeepsNormalForm`).

## Model

| member | source | states |
|---|---|---|
| JobQueue.ClaimCorrect | lib/ai-orchestrator/worker/job-queue.ts:172-211 | the scan leases the first row, in its order, of those that are claimable with attempts left, or nothing iff there is none; exactly the exhausted rows met before it are failed, every other row is unchanged |
| JobQueue.RpcClaimCorrect | test/_fake-atomic-gateway.ts:92-127 | the two-phase claim leases that same least row and fails every exhausted claimable row |
| JobQueue.ClaimsAgree | lib/ai-orchestrator/db/repository.ts:831-874 | on every table both claims pick the same row, and their states differ only in exhausted rows ordered after the pick |
| JobQueue.InMemoryJobQueue.Enqueue | lib/ai-orchestrator/worker/job-queue.ts:132-157 | a queued row without owner, result or attempts is added last; nothing else changes |
| JobQueue.InMemoryJobQueue.ClaimNext | lib/ai-orchestrator/worker/job-queue.ts:172-211 | in columns: of the rows that are queued, or running on a lease that is missing or over, and have attempts left, it leases the one with the least priority number, then the earliest creation, then the earliest insertion; it fails those without attempts left that outrank it, all of them when nothing is picked, and changes no other row |
| JobQueue.InMemoryJobQueue.RpcClaimNext | test/_fake-atomic-gateway.ts:92-127 | in columns: the same pick, and every such row without attempts left is failed |
| JobQueue.InMemoryJobQueue.RenewLease | lib/ai-orchestrator/worker/job-queue.ts:213-228 | renews iff the row is running and names this worker; only the expiry moves |
| JobQueue.InMemoryJobQueue.SetStatus | lib/ai-orchestrator/worker/job-queue.ts:230-243 | exactly the given columns of that row change; an unknown id is reported |
| JobQueue.InMemoryJobQueue.CancelJob | lib/ai-orchestrator/worker/job-queue.ts:265-273 | cancels iff queued or running and leaves the lease columns as they are |
| Heartbeat.AbortsExactlyWhenTriggered | lib/ai-orchestrator/worker/heartbeat.ts:99-133 | for all beats: aborted iff some beat was a cleanly logged rejection, or completed, with its log line accepted, a row of threshold failures no renewal interrupts |
| Heartbeat.ReasonOfFirstTrigger | lib/ai-orchestrator/worker/heartbeat.ts:99-133 | for all beats the reason of an abort is told by the first beat that triggers: an external cancel or a lost lease for a logged rejection, by what the status read said, else failed renewals |
| Heartbeat.SignalsOnce | lib/ai-orchestrator/worker/heartbeat.ts:92-97 | onAbort is called at most once, with the recorded reason, and no later beat changes anything |
| Heartbeat.StatisticsCount | lib/ai-orchestrator/worker/heartbeat.ts:107-125 | up to the beat that aborts, renewals and failures count the renewed beats and those that ended in the catch block |
| Heartbeat.SilentSinkNeverAborts | lib/ai-orchestrator/worker/heartbeat.ts:123-132 | with renewals failing and log lines refused, no number of beats aborts |
| Heartbeat.Heartbeat.Tick | lib/ai-orchestrator/worker/heartbeat.ts:99-133 | what each kind of beat does to the counters, the reason and the signals, the threshold test and its refused log line included |
| Heartbeat.Heartbeat.Beats | lib/ai-orchestrator/worker/heartbeat.ts:79-133 | a whole run of ticks ends aborted iff one of them triggers |
| LeaseProtocol.TimedRunsAreExclusive | lib/ai-orchestrator/worker/job-service.ts:242-258 | in every reachable state of any number of workers, sharing ids or not, with beats on time, at most k log lines refused in a row and a lease of at least start delay + (threshold + k) * interval, at most one live execution works on a job |
| LeaseTheorems.ExclusiveIffLeaseFits | lib/ai-orchestrator/worker/job-service.ts:419-429 | for every k, exclusion holds in every such run iff start delay + (threshold + k) * interval <= lease |
| LeaseTheorems.UnloggedOutageIsOvertaken | lib/ai-orchestrator/worker/heartbeat.ts:123-132 | every lease that fits without room for one more beat is safe while all lines are logged, and overtaken in a run where one at a time is refused |
| LeaseTheorems.LiveEndingsAreByClaimants | lib/ai-orchestrator/worker/job-service.ts:371-413 | on time and with a fitting lease, ids shared or not and the final write split from its check or not: an execution that ends without having been told to stop is its job's last claimant and the only live one |
| LeaseTheorems.NoClobbering | lib/ai-orchestrator/worker/job-service.ts:373-413 | a result is written only by an execution that found itself named as the owner; a new terminal status comes from such a write, a cancel, the attempt sweep or the rejection of an unparsable payload; with a worker id per execution and nothing between ownership read and final write the writer is the last claimant |
| LeaseTheorems.OneWritePerClaimAndBoundedClaims | lib/ai-orchestrator/worker/job-queue.ts:192-210 | over any run each claim writes an outcome at most once, attempts count the claims, and a job is claimed at most max_attempts times |
| LeaseFinality.ResultsAreSafeIff | lib/ai-orchestrator/worker/job-service.ts:371-389 | for every timing: in every run a result changes only through the job's last claimant iff executions have worker ids of their own and nothing comes between ownership read and final write |
| LeaseFinality.StaleFinishClobbers | lib/ai-orchestrator/worker/job-service.ts:373-389 | for every timing without one of the two, there is a run in which the stale execution overwrites the running job of a newer claim |
| LeaseFinality.StaleExecutionsRecordIff | lib/ai-orchestrator/worker/job-service.ts:184-204 | with worker ids of their own, in every reachable state: an unfinished execution records an outcome in some continuation iff its payload cannot be parsed or its ownership read succeeds or has succeeded; a stale one iff the payload cannot be parsed or it has read the owner before the newer claim |
| LeaseFinality.RejectionClobbers | lib/ai-orchestrator/worker/job-service.ts:184-204 | for every timing there is a run in which the rejection of an unparsable payload ends a job another execution has claimed since |
| LeaseFinality.EndedRowIsFinalIff | lib/ai-orchestrator/worker/job-service.ts:373-413 | an ended row of a reachable state changes in no continuation iff no unfinished execution may still write it; a parsable one that names no owner, with no ownership read under way, is final; with ids of their own and an undivided finish it is final iff it names no owner or its last claimant has ended |
| LeaseFinality.EndedStatusIsFinalIff | lib/ai-orchestrator/worker/job-service.ts:344-372 | the status of an ended row can still change iff such an execution exists and, if the row says failed, its payload parses and its own lease has not failed |
| LeaseFinality.CancelledWhileQueuedIsFinal | lib/ai-orchestrator/worker/job-queue.ts:265-273 | a job cancelled while queued keeps that row in every continuation of every run |
| LeaseFinality.CancelledOrSweptCanStillPass | lib/ai-orchestrator/worker/job-queue.ts:265-273 | for every timing there are runs in which the last claimant records a pass on a job that was cancelled, or failed by the attempt sweep, while running |
| SandboxRunner.PatchStep | lib/ai-orchestrator/worker/sandbox-runner.ts:101-143 | commands may follow iff the job is no patch job, or its patch was applied and logged, or applying is switched off outside production |
| SandboxRunner.RunCommands | lib/ai-orchestrator/worker/sandbox-runner.ts:145-197 | the lines are those of a prefix of the commands that stops at the first one that does not succeed; the status says why |
| SandboxRunner.RunSandboxJob | lib/ai-orchestrator/worker/sandbox-runner.ts:63-222 | passed iff not cancelled, workspace ready, patch step passed and every command allowed, run, exit 0, not timed out and not aborted; otherwise cancelled, timed out or failed by what the first command that did not run well met, with one outcome line for each command that got that far; the result carries the applier's report |
| JobService.RejectPayload | lib/ai-orchestrator/worker/job-service.ts:184-204 | an unparsable payload fails the row without reading its owner and gives up its lease; its result stays |
| JobService.WriteIfOwned | lib/ai-orchestrator/worker/job-service.ts:371-413 | the row takes status and result, and gives up its lease, iff the ownership read succeeded and the row names this worker; no other column and no other row changes |
| JobService.Conclude | lib/ai-orchestrator/worker/job-service.ts:344-416 | the final write happens iff the ownership read succeeded and the row names this worker; a lost or unrenewable lease makes it failed, signalled, with its error appended; its result says passed under another status iff the sandbox passed and the lease failed |
| JobService.LoweredPassIsRecorded | lib/ai-orchestrator/worker/job-service.ts:344-372 | for every threshold, a monitor aborted by that many failing renewals makes an owned row say failed while its result says passed |
| JobService.ProcessClaimedJob | lib/ai-orchestrator/worker/job-service.ts:158-416 | a passed run was tested in full (patch step, every command in order with exit 0, lease kept), and a run that reaches its commands and is tested in full passes; the result says passed under another status iff all that held and only the lease failed; in production a passed patch job has its patch applied; no other row changes |
| JobService.PollAndRunOnce | lib/ai-orchestrator/worker/job-service.ts:419-429 | undisturbed: nothing iff no row was eligible, else the first eligible row spends an attempt, gives up its lease and carries the verdict |
| Drain.Pass | scripts/ai-orchestrator-worker.ts:66-75 | any interleaving of a batch of polls with renewals, endings, cancels and other workers: every claim spends an attempt of a live job, and a pass without one leaves nothing claimable as of its last poll |
| Drain.DrainQueue | scripts/ai-orchestrator-worker.ts:64-77 | terminates with the attempts left on live jobs as measure, processes at most that many, and unless stopped leaves nothing claimable as of its last poll |
| LineEndings.TwoPassesAreOne | lib/ai-orchestrator/patch/hash.ts:33-35 | the two replacements equal one left-to-right scan, on every text |
| LineEndings.NormalFormMeansSameLines | lib/ai-orchestrator/patch/hash.ts:28-35 | equal normal forms iff the same lines under CRLF, CR and LF; no CR is left and the form is stable |
| LineEndings.DriftHashMeansSameLines | lib/ai-orchestrator/patch/hash.ts:37-45 | with an injective digest, equal drift hashes iff the same lines |
| LineEndings.CheckoutKeepsNormalForm | lib/ai-orchestrator/patch/hash.ts:37-45 | writing LF as CRLF keeps the drift form iff the text had no CRLF |
| PatchPaths.SafePathsStayInside | lib/ai-orchestrator/worker/patch-applier.ts:42-56 | a path the guard lets through resolves to its own place below the workspace root |
| PatchPaths.GuardRefusesIff | lib/ai-orchestrator/worker/patch-applier.ts:42-56 | the guard's answer is the first in its order of what the characters of the trimmed path show: empty, absolute, `..`, `~`, a `.git` or `node_modules` between slashes or ends, an environment file; none iff none of them |
| PatchPaths.SegmentsStandBetweenSlashes | lib/ai-orchestrator/worker/patch-applier.ts:50-52 | a segment of the split path is one that stands in the text between slashes of either kind, or its ends |
| PatchPaths.DotDotLeaves | lib/ai-orchestrator/worker/patch-applier.ts:48 | without the guard `..` resolves to the parent of any workspace, so outside it |
| PatchPaths.CleanIff | lib/ai-orchestrator/worker/patch-applier.ts:121-128 | the place of a path is its list of segments iff every segment is a name: none empty, `.` or `..` |
| PatchValidator.ValidateFile | lib/ai-orchestrator/patch/patch-validator.ts:74-144 | the errors are exactly the rules that path, action, content and reason break, said of their characters, each once and in the order they are checked |
| PatchValidator.ValidatePatch | lib/ai-orchestrator/patch/patch-validator.ts:146-172 | ok iff no file breaks a rule and every command is known; every error names the file and the rule it breaks or the unknown command, and none is missing |
| PatchValidator.PassedContentIsStoredVerbatim | lib/ai-orchestrator/patch/patch-validator.ts:51-63 | the stored content of a file that passed is its content: redaction changes nothing in it |
| PatchValidator.PassedPathsAreSafeUnlessBlank | lib/ai-orchestrator/worker/patch-applier.ts:42-56 | the worker's own guard refuses a validated path iff it is blank |
| PatchValidator.BlankPathPassesValidation | lib/ai-orchestrator/patch/patch-validator.ts:78-106 | a blank path passes validation and is refused by the worker |
| PatchApplier.Workspace.ApplyFiles | lib/ai-orchestrator/worker/patch-applier.ts:112-203 | the loop with its first-blocker exit computes the specified tree and report |
| PatchApplier.Workspace.ApplyPatchSet | lib/ai-orchestrator/worker/patch-applier.ts:79-204 | applied iff the set is validated, applied or draft, has rows, and each in its turn has a safe path, is no rename, creates what is missing, changes or deletes what is there with a matching hash (required in strict mode), and modifies with content; then the tree is the base with all rows; otherwise the code says what failed first, and only the rows before it are applied |
| PatchApplier.AnswersRightly | lib/ai-orchestrator/worker/patch-applier.ts:79-204 | the same of the specification, for every guard, base tree, status and list of rows, hash flag included |
| PatchApplier.AppliesAPrefix | lib/ai-orchestrator/worker/patch-applier.ts:112-203 | the tree is the base with exactly the reported files written in order, each applicable in its turn: all on success, else those before the first blocked file, which the error names |
| PatchApplier.HashFlagIsExact | lib/ai-orchestrator/worker/patch-applier.ts:137-203 | on success baseHashChecked iff every modified or deleted file carried a hash |
| PatchApplier.ClearMeansHashesMatch | lib/ai-orchestrator/worker/patch-applier.ts:211-224 | an applied modify or delete replaced existing content that matches its hash; strict mode forces a hash |
| PatchApplier.OtherPathsUntouched | lib/ai-orchestrator/worker/patch-applier.ts:112-183 | no path outside the written ones changes |
| PatchApplier.NeverEscapes | lib/ai-orchestrator/worker/patch-applier.ts:112-128 | the escape check never fires: what passes the path guard already lies inside |
| PatchBranch.Branch.ApplyPatchFiles | lib/ai-orchestrator/github/patch-service.ts:171-241 | writes the files in order up to the first refusal: a create of what the base has, a change of what it has not, or a branch that no longer holds the base's content at that path; on success each record carries the hashes of the base content and of the content written |
| PatchBranch.TestedTreeIsProposedTree | lib/ai-orchestrator/github/patch-service.ts:112-138 | after a successful sandbox apply: the branch accepts the patch iff no file overwrites an earlier effect on its path, and the trees are equal |
| PatchBranch.KeptSince | lib/ai-orchestrator/github/patch-service.ts:177-238 | a path holds what the last file that names it left there |
| PatchBranch.DistinctPathsNeverDiverge | lib/ai-orchestrator/github/patch-service.ts:171-241 | with distinct paths, sandbox success implies branch success with the same tree |
| PatchBranch.RepeatedPathDiverges | lib/ai-orchestrator/github/patch-service.ts:196-210 | two modifies of one file: the sandbox applies both, the branch refuses the second as stale |
| PatchBranch.StrictApplyMeansNoDrift | lib/ai-orchestrator/github/patch-service.ts:115-119 | if a strict sandbox applies hashes captured on another tree, every modified or deleted file has the same lines in both |
| PrFlow.PrService.ValidateAndStore | lib/ai-orchestrator/github/patch-service.ts:61-141 | a set is stored either way, validated iff the text parses and breaks no rule; its rows keep path and action, the redacted content and the hash of the base file they change |
| PrFlow.FindRequiredJob | lib/ai-orchestrator/worker/job-service.ts:127-138 | the newest patch job among the 50 newest jobs; nothing iff none of those is a patch job |
| PrFlow.CheckWorkerJob | lib/ai-orchestrator/github/pull-request-service.ts:402-503 | in fields of the job: the gate opens iff there is one that passed for this patch set, with the patch applied and, in strict mode, its hashes checked; each refusal describes the job |
| PrFlow.PrService.Propose | lib/ai-orchestrator/github/pull-request-service.ts:506-603 | created iff branch, every file and PR are accepted; otherwise a failed record and a prefix of the files |
| PrFlow.PrService.CreatePullRequest | lib/ai-orchestrator/github/pull-request-service.ts:146-604 | in fields of the request: a dry run iff the first four gates are open; live, the branch is written iff all are, in worker mode only with a job that passed for this patch set with the patch applied and, in strict mode, hashes checked; otherwise the reply names the first closed gate and why, and the branch stays; a PR created in worker mode has on its branch exactly the tree its job's run tested, every command with exit 0 |
| PrFlow.LivePrCarriesTestedTree | lib/ai-orchestrator/github/pull-request-service.ts:402-441 | what open gates mean in worker mode: the tree to be written is exactly the one on which the job ran every command with exit 0, and the host accepts the writes iff no file overwrites an earlier effect; strict mode adds that every touched file was hashed |
| Orchestration.BuildReport | lib/ai-orchestrator/test-runner-worker.ts:164-191 | the report passes iff the job did and is never empty |
| Orchestration.ReportLines | lib/ai-orchestrator/test-runner-worker.ts:164-191 | one executed line for every command of the job with its exit code, or a single one with exit code 0 iff the job passed |
| Orchestration.PromptShowsItsParts | lib/ai-orchestrator/orchestrator.ts:132-258 | each part that goes into a prompt stands in its text in full, under its heading |
| Orchestration.TextIsFirstOfItsKind | lib/ai-orchestrator/orchestrator.ts:313-316 | the text taken from an answer is that of its first artifact of the kind asked for, and its summary when it has none |
| Orchestration.ReviewTextShowsPatch | lib/ai-orchestrator/async-orchestrator.ts:213-217 | the review prompts of two patches are the same text iff the patches are |
| Orchestration.Store.RunJudgement | lib/ai-orchestrator/async-orchestrator.ts:196-239 | a report as green as the job, a review and a judge's answer are added; the verdict is pass iff the judge passed a green report, fail iff the judge failed it, else needs revision |
| Orchestrator.SyncOrchestrator.Run | lib/ai-orchestrator/orchestrator.ts:125-277 | the loop records the session of the round-by-round specification, and it ends as its messages say: passed iff the judge passed a green report in the last round, failed iff it failed it or the patch was forbidden, else unresolved for want of approval or with no round left |
| Orchestrator.SessionEndsByItsMessages | lib/ai-orchestrator/orchestrator.ts:165-277 | so ends every session, for any adapters, job results and number of rounds; a passed one has a last job that passed |
| PromptProvenance.SessionFollowsScript | lib/ai-orchestrator/orchestrator.ts:132-258 | every call of every session is the scripted one: each prompt is made of the named earlier answers and the round's own report, and the model messages are the answers in order |
| AsyncOrchestrator.AsyncOrchestrator.Start | lib/ai-orchestrator/async-orchestrator.ts:88-140 | three answers, then the first round: a forbidden patch fails the run, one that needs approval leaves it unresolved, any other enqueues one job and waits for it |
| AsyncOrchestrator.AsyncOrchestrator.ImplementAndEnqueue | lib/ai-orchestrator/async-orchestrator.ts:253-339 | one round up to its job: blocked patches end the run and the session, others enqueue and wait; the row stores the texts redacted, of the report at most 8000 characters |
| AsyncOrchestrator.AsyncOrchestrator.Resume | lib/ai-orchestrator/async-orchestrator.ts:142-249 | a resume whose job has ended adds report, review and judge's answer: a pass of a green report leaves the run passed in that round, a fail leaves it failed, anything else begins the next round or leaves it unresolved after the last; without an ended job nothing changes, and it is still waiting iff the run is open |
| AsyncOrchestrator.AsyncOrchestrator.Cancel | lib/ai-orchestrator/db/repository.ts:1143-1156 | cancels an open run, clears its job and gives it a finish time; an ended one is left alone |
| OrchestrationRefinement.AsyncRefinesSync | lib/ai-orchestrator/async-orchestrator.ts:88-367 | for any adapters and job results and max >= 1: started and resumed once per job it makes the loop's calls iff redaction keeps the texts read back, and then messages, jobs, status and round agree too |
| OrchestrationRefinement.NoRoundsDiffer | lib/ai-orchestrator/orchestrator.ts:165-175 | with max <= 0 the loop makes three calls, the resumable form at least four |
| OrchestrationRefinement.StartAndResume | lib/ai-orchestrator/async-orchestrator.ts:88-249 | the class goes through the states the refinement speaks of |
| OrchestrationSafety.StepKeeps | lib/ai-orchestrator/async-orchestrator.ts:142-367 | every action keeps the state sound; ended runs never change; an effective resume uses up a round; only a resume that finds the passed job of the current round passes the run, in that round |
| OrchestrationSafety.PassIsEarned | lib/ai-orchestrator/async-orchestrator.ts:209-248 | for max >= 1, in every reachable state the run is passed iff it has ended uncancelled and its last messages are an unblocked patch, a green report, a review and a judge that said pass; the last message of a failed or unresolved run says why; waiting iff a job is pending; ended iff finished |
| OrchestrationSafety.PassNeedsAPassedJob | lib/ai-orchestrator/async-orchestrator.ts:159-248 | for max >= 1: every passed run was made passed by one resume that found the job of the run's final round, its last one, ended and passed; nothing about the run has changed since |
| OrchestrationSafety.ResumeFollowsTheJudge | lib/ai-orchestrator/async-orchestrator.ts:209-248 | for max >= 1: in every reachable state a resume that finds the round's job ended follows the judge's answer it adds: passed, failed, the next round, or unresolved after the last |
| OrchestrationSafety.ProgressIsBounded | lib/ai-orchestrator/async-orchestrator.ts:244-248 | for max >= 1: rounds stay in 1..max, at most max jobs, 3 + 3 * max model calls and max effective resumes |
| OrchestrationSafety.LaterStates | lib/ai-orchestrator/async-orchestrator.ts:145-147 | rounds never go back, and an ended run stays as it is |
| TestJobWait.WaitForTerminal | lib/ai-orchestrator/test-runner-worker.ts:90-105 | returns the first ended reading, gives up only after the timeout, and reads a bounded number of times |
| ResumeScheduler.RunTable.ClaimLock | lib/ai-orchestrator/db/repository.ts:1173-1198 | takes the lock iff the run waits and its lock is free or expired |
| ResumeScheduler.RunTable.ReleaseLock | lib/ai-orchestrator/db/repository.ts:1200-1211 | clears the lock iff it still names this owner |
| ResumeScheduler.RunTable.ListWaiting | lib/ai-orchestrator/db/repository.ts:1160-1171 | the oldest waiting runs, in order, up to the limit |
| ResumeScheduler.RunTable.FindResumable | lib/ai-orchestrator/orchestration-resume-scheduler.ts:95-110 | a run is found iff it waits, its job has ended, fewer than 4 * limit older runs wait and fewer than `limit` of those are ready, the early stop included |
| ResumeScheduler.CandidatesAreDue | lib/ai-orchestrator/orchestration-resume-scheduler.ts:95-110 | the same of the specification, on every table |
| ResumeScheduler.RunTable.ProcessCandidate | lib/ai-orchestrator/orchestration-resume-scheduler.ts:152-201 | skipped without a change iff the run does not wait or its lock is held; otherwise an attempt is counted, the lock is free again, and row and result show what the resume answered, or its error |
| ResumeScheduler.RunTable.ResumeDue | lib/ai-orchestrator/orchestration-resume-scheduler.ts:133-205 | one such result per due run, scanned = resumed + still waiting + skipped + failed, other runs untouched, every lock taken is free again |
| ResumeProtocol.EachJobIsConsumedOnce | lib/ai-orchestrator/orchestration-resume-scheduler.ts:152-201 | over any interleaving of a start, cancels and ticks whose resumes fit in the lock's time to live, stale write-backs included, a job is advanced at most once and reviewed at most once more than it failed |
| ResumeProtocol.ConsumedOnceIffLockFits | lib/ai-orchestrator/orchestration-resume-scheduler.ts:152-201 | for every time to live: each job is advanced at most once in every run iff the longest resume fits in it and no user resumes beside the ticks |
| ResumeProtocol.LocksAreReturned | lib/ai-orchestrator/orchestration-resume-scheduler.ts:198-201 | when every release reaches the table, a lock is only held in the name of a running tick; with none running it is free |
| ResumeProtocol.UnlockedResumeConsumesTwice | lib/ai-orchestrator/service.ts:489-512 | whatever the times, the user-facing resume next to a tick advances one job twice in some run |
| ResumeProtocol.OverrunConsumesTwice | lib/ai-orchestrator/db/repository.ts:1184-1195 | whenever a resume may outlast the time to live, some run lets another tick in and advances the job twice |
| ResumeProtocol.CancelledIsFinalIff | lib/ai-orchestrator/async-orchestrator.ts:88-249 | a cancelled run stays cancelled in every continuation, and in every allowed one, iff its start is over, no resume is between its read of the run and its advance, and no failing tick holds columns it read before the cancel |
| ResumeProtocol.CancelIsOverwritten | lib/ai-orchestrator/async-orchestrator.ts:316-322 | for all parameters a cancel during the review of a punctual resume is overwritten by its advance |
| ResumeProtocol.CancelBetweenReadsIsOverwritten | lib/ai-orchestrator/async-orchestrator.ts:143-160 | for all parameters so is a cancel between a tick's read of the run and its read of the job |
| ResumeProtocol.CancelEndsTheJobItOverlooks | lib/ai-orchestrator/service.ts:555-565 | a user's resume has read the run, the job has not ended; the cancel ends the job first, and the resume goes on to overwrite the cancel |
| ResumeProtocol.CancelDuringStartIsOverwritten | lib/ai-orchestrator/async-orchestrator.ts:88-140 | for all parameters a cancel before the start has written its outcome is overwritten, with no resume anywhere |
| ResumeProtocol.CancelIsUndoneByErrorNote | lib/ai-orchestrator/db/repository.ts:1049-1085 | for all parameters a failing tick that read the row before the cancel writes its old status back with the error |
| BraceText.ScanFindsTheBlock | lib/ai-orchestrator/schema.ts:28-54 | the scan stops at n iff the first n characters are one balanced block under the string-aware grammar |
| JsonExtract.FindClose | lib/ai-orchestrator/schema.ts:28-54 | the index loop returns the end the scan specifies |
| JsonExtract.ExtractJsonObject | lib/ai-orchestrator/schema.ts:17-55 | fence, first brace and loop compute the specified extraction |
| JsonExtract.CandidateStandsInTheFirstBlock | lib/ai-orchestrator/schema.ts:18-21 | the text searched is what the first fence and the next one enclose, without a `json` tag in any case, trimmed; without two fences, so also with one that is never closed, it is the whole text, trimmed |
| JsonExtract.ExtractsTheOnlyBlock | lib/ai-orchestrator/schema.ts:23-54 | the result is the one balanced block that begins at the candidate's first brace, or an error iff there is none |
| JsonExtract.RoundTripInProse | lib/ai-orchestrator/schema.ts:17-55 | any object printed after brace-free prose, before any text, with no closed fence anywhere, is extracted exactly |
| JsonExtract.RoundTripInFence | lib/ai-orchestrator/schema.ts:20-21 | an object printed, without a fence of its own, in the first fence, tagged in any case or not, is extracted exactly even if the prose has braces |
| RateLimit.InMemoryStore.Record | lib/ai-orchestrator/security/rate-limit.ts:47-53 | the list of the key becomes the retained hits and this one; count and oldest are its length and head |
| RateLimit.InMemoryStore.Check | lib/ai-orchestrator/security/rate-limit.ts:67-88 | the verdict for a key whose list holds its requests so far is the right one |
| RateLimit.VerdictIsRight | lib/ai-orchestrator/security/rate-limit.ts:67-88 | for every non-decreasing history and request: ok iff the limit admits any and there are fewer than `limit` before it or the one `limit` places before it has left its window; what remains is the limit less the requests in the window, or 0; not ok, retryAfter is the least positive number of seconds after which the oldest counted request has left, else 0 |
| RateLimit.HitsAreWindow | lib/ai-orchestrator/security/rate-limit.ts:48-51 | the list holds exactly the requests of the last window, accepted or not |
| RateLimit.GlobalWindowBound | lib/ai-orchestrator/security/rate-limit.ts:76-87 | on a non-decreasing clock every half-open window holds at most `limit` requests of a key that were answered ok |
| RateLimit.RetryAfterIsLeast | lib/ai-orchestrator/security/rate-limit.ts:79-84 | the least whole number of seconds after which the oldest counted hit has left the window |
| RateLimit.SilenceFreesTheWindow | lib/ai-orchestrator/security/rate-limit.ts:47-53 | after a silent window the next request is accepted iff the limit admits any |
| RateLimit.AcceptedIff | lib/ai-orchestrator/security/rate-limit.ts:67-88 | on a non-decreasing clock a request is accepted iff there are fewer than `limit` before it or the one `limit` places before it has left its window |
| RateLimit.RetryIsAcceptedIff | lib/ai-orchestrator/security/rate-limit.ts:79-84 | a request made exactly retryAfter seconds after a rejection is accepted iff the request `limit` places before it has left the window by then |
| RateLimit.RetryPromisesIff | lib/ai-orchestrator/security/rate-limit.ts:79-84 | for every limit, waiting out retryAfter always admits the next request iff the window is at most a second |
| RateLimit.RejectedHitsCount | lib/ai-orchestrator/security/rate-limit.ts:50-51 | for every limit and every longer window, a request that waited out Retry-After is rejected again in some history |
| RedisRateLimit.UpstashStore.Record | lib/ai-orchestrator/security/redis-rate-limit.ts:87-104 | the five commands in order leave the specified set, count and oldest score |
| RedisRateLimit.StoreRefinement | lib/ai-orchestrator/security/redis-rate-limit.ts:87-104 | on every non-decreasing, non-negative history both stores return the same count and oldest timestamp, key expiry included |
| CommandRunner.CaptureIgnoresChunking | lib/ai-orchestrator/worker/command-runner.ts:250-258 | the captured stream and its flag are those of the capped text of all bytes when no chunk ends inside a character that goes on; below the limit, only then |
| CommandRunner.WholeCharactersAreCaptured | lib/ai-orchestrator/worker/command-runner.ts:250-258 | chunks that encode whole characters are captured as the capped concatenation of their texts |
| CommandRunner.SplitCharacterIsLost | lib/ai-orchestrator/worker/command-runner.ts:250-258 | a euro sign that arrives as one byte and two is captured as three replacement characters |
| Utf8.DecodeEncoded | lib/ai-orchestrator/worker/command-runner.ts:252 | every text survives encoding (section 3 of RFC 3629) and decoding |
| Utf8.CutDecodesIff | lib/ai-orchestrator/worker/command-runner.ts:250-258 | bytes decoded in two pieces give the text of the whole iff the second piece does not go on with a character the first leaves unfinished; otherwise a longer one |
| Utf8.PiecesDecodeIff | lib/ai-orchestrator/worker/command-runner.ts:277-282 | pieces decoded one by one give the text of all bytes iff every cut is clean; otherwise a longer one |
| CommandRunner.Runner.Finish | lib/ai-orchestrator/worker/command-runner.ts:295-316 | the first call settles the result from the captured state, later ones change nothing |
| CommandRunner.Runner.Play | lib/ai-orchestrator/worker/command-runner.ts:277-323 | under any order of events the result is set once, by the first close or error, from what came before it: no exit code after a kill, the timeout's note before the abort's, each stream cut at its limit |

## Left out

- HTTP routes, the page, audit and event rows, scripts other than the drain loop, role checks, settings and login: plumbing that would only add easy members.
- Regular expressions of the scan, the redaction and the validator: parameters; only the facts used by a theorem are assumed of them.
- Model adapters, the GitHub REST client, git, child processes, SHA-256: parameters or small interfaces. A PUT or DELETE that the host answers with 404 is dropped silently by the client; the branch model treats it as a refusal.
- `JobService.Conclude` makes the ownership read and the final write without a break, as a method of one object; what comes between them is modelled in `LeaseProtocol`.
- Overlapping ticks of one heartbeat: the interval timer may start a tick while the previous renewal is pending; a tick is one action here.
- The interval timer's own start and stop, and beats after the run has ended.
- Directories, links and Windows path rules in the workspace: a file and a directory never share a path, and `.` itself is not a file.
- File-system faults of the applier (`io_error`) and the diff summary.
- Patch paths that name one file in two notations (`a//b`, `./a`): excluded by precondition in the tree theorems.
- A base branch that moves between the sandbox run and the branch: the tree theorems take the same base; `StrictApplyMeansNoDrift` says what the hashes catch.
- The text of the patch artifact is the one the reused patch set was stored from, as a premise of `PrFlow.LivePrCarriesTestedTree`.
- Methods of the database queue that read a row and then write it are single steps of the lease protocol, as the methods of the in-memory queue are.
- The Postgres resume lock, whose read, write and re-read is not exclusive under every interleaving.
- Adapter failures in the middle of a resume that has already moved `current_round`; a failed resume leaves the row as it was.
- Command-run rows, the inline test executor and the fixed wording of summaries; `PrFlow` leaves out titles and bodies.
- Errors of the queue inside the drain loop, which end the pass.
- Output chunks that are already strings, and a cut at the output limit, where only one direction of `CaptureIgnoresChunking` is claimed.
- Characters beyond U+FFFF, which JavaScript counts as two: lengths and cuts count them as one here.
- The clock of key expiry: Redis judges it on its own clock and the scores come from the application's; `RedisRateLimit` has one clock for both.
- The step updates of a start are one kind of write, of a row it read as running; those of a resume are read and written back as such.
- JSON numbers are any text over their character set, without the grammar of section 6 of RFC 8259; the extractor does not look inside them.
