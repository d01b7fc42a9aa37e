# A verified model of the gateway's protocols

This project models, in Dafny, the parts of the agent gateway whose correctness spans many
calls or many processes, and proves what they guarantee:

- **Cron lease protocol** (`CronTypes`, `CronStatements`, `CronEnvironment`, `CronInterleaving`,
  `CronScheduler`, `CronWorld`, `CronRefinement`, `CronMeaning`, `CronTiming`, `CronRepeats`,
  `CronPoll`).
  Schedulers share two tables. The tables are maps and every SQL statement or transaction is
  a function of them. Exclusion and fencing are proved for every interleaving of single statements
  of any number of processes; leases, one-shots, repeat limits and backoff for runs in which a claim
  is one step. In both, the mirror, pruning and operators may write the tables at any moment, and
  every process has its own clock. `CronRefinement` proves that the second kind of run is a special
  case of the first.
- **Hermes mirror** (`HermesMerge`, `HermesSync`, `HermesSyncLaws`, `HermesMeaning`, `HermesHistory`).
  The upsert's nested `CASE` as a function on rows, its algebra, the synchronisation of all stores with it, and
  its histories beside a working scheduler. Validity of a source job depends on the instant.
- **OMO turns** (`OmoTurn`, `OmoTurnLaws`, `OmoTranscript`, `OmoOwnership`). The client's frame loop
  as a step function on a state and a JSON-RPC message, the ownership map, the three deadlines and cancel.
- **Streaming decoder** (`Utf8`, `LlmStream`). Incremental decoding and line splitting against
  one-shot lossy decoding, which is stated from the grammar in section 4 of RFC 3629 and the
  maximal-subpart rule in section 3.9 of the Unicode Standard.
- **Restart circuit** (`RestartCircuit`), **stored session keys** (`StorageKey`), **WAV voice
  notes** (`WavDecoder`), **workspace names** (`WorkspaceSlug`). `Common` holds what they share.

Operations that the program performs by changing things (scheduler, synchroniser, backend,
stream task, supervisor, the parsers' loops) are methods; each is proved equal to a function,
and the laws are lemmas about that function. What each operation computes is stated a second time
without those functions: on rows (`CronMeaning`, `HermesMeaning`), on frames by index
(`OmoTranscript`), on text, bytes and chunks. Check everything with `dafny verify dfyconfig.toml`.

## Where the code does something other than its documentation, or the obvious property, says

- *Stored keys lose the sender in a guild.* `from_storage_key` calls itself the strict inverse of
  `storage_key`; it is so exactly for keys without a guild or without a sender
  (`StorageKey.KeySurvivesIff`, `StorageKey.StrictRoundTrip`; `StorageKey.GuildSenderIsLost` is one
  such key). The dashboard's parser also accepts a trailing bar, which the strict one refuses
  (`StorageKey.ParsersAgree`); the strict one accepts a plus sign before a length and a guild key
  without a sender, which the dashboard refuses (`StorageKey.OnlyStrictAcceptsIff`).
- *RIFF pad bytes are not skipped.* A well-formed file with an unknown chunk of odd size in front of
  the data does not decode to its audio (`WavDecoder.PaddedChunkIff`,
  `WavDecoder.OddChunkHidesData`).
- *A digest in a workspace name does not make it unique.* Every hashed name is also the plain name
  of another owner (`WorkspaceSlug.HashedSlugIsShared`). The user `cron:` gets the name `cron-` with
  an outer hyphen, and is the only one (`WorkspaceSlug.SlugIsSafe`, `WorkspaceSlug.BareCronSlug`).
- *A repeat counter can be incremented without effect.* Next to a `repeat` member that is not an
  object, the increment goes where the reader does not look; `CronTypes.IncrementIsObservedIff`
  gives the exact condition, `CronTypes.ScalarRepeatIsNotCounted` a payload.
- *Resynchronising an unchanged source is not always without effect.* A recurring job whose
  schedule has run out, in its own zone, fails validation, so its row is deleted with its runs;
  nothing else is touched (`HermesSyncLaws.SyncIsIdempotentIff`,
  `HermesSyncLaws.ExhaustedScheduleIsDeleted`). A job that the scheduler switched off because UTC,
  which failed completions evaluate schedules in, has no further instant, is deleted likewise, or
  armed again if its own zone still has one (`HermesHistory.CompletionOutcome`,
  `HermesHistory.ZoneMismatchRearms`). A recurring job below its limit that was paused while its source
  has it on is switched on again (`HermesHistory.SyncAfterHistory`). A store that lists an id twice
  with different definitions resets the next run every time (`HermesSyncLaws.DuplicateIdsResetNextRun`).
- *A one-shot may run twice, or be marked as missed after it succeeded,* if its source text is
  changed and synchronised while it runs: the completion then misses the row
  (`CronTiming.CompletionDisarmsIff` is the exact condition, `CronTiming.EditedOneShotRunsTwice` and
  `CronTiming.EditedOneShotIsMissed` are such a history).
- *An overdue one-shot with an unreadable payload starves the jobs after it.* Its claim is an error,
  which ends the poll; it stays as it is, and ends the next poll as well (`CronPoll.PollIsPerJob`,
  `CronPoll.StarvationLasts`).
- *A read that times out ends the turn, but not always with an error.* After the work deadline the
  drain may still find the turn completed; `OmoTurnLaws.TimeoutEndsTurn` says exactly when, and
  `OmoTurnLaws.TimeoutMayDeliver` is such a drain.
- *A successful recurring run whose next instant cannot be computed is not finished.* The
  transaction is dropped and the run stays `running` until it is reclaimed
  (`CronStatements.CompleteEffect`, `CronStatements.RolledBackSuccess`).

## Model

| member | source | states |
|---|---|---|
| Utf8.LookMeaning | src/agent/llm.rs:745-772 | the validator's answers in the grammar's terms: a scalar, a maximal subpart of an ill-formed sequence, or a proper prefix of a well-formed one |
| Utf8.FromUtf8OfEncode | src/agent/llm.rs:746-750 | the encoding of any text is valid and decodes to that text |
| Utf8.ValidIsEncoding | src/agent/llm.rs:746-750 | bytes that are found valid are the encoding of the text they decode to |
| LlmStream.LossyTextIsLossy | src/agent/llm.rs:745-772 | decoding as the program does it is lossy decoding as the standard defines it |
| LlmStream.LossyIsDetermined | src/agent/llm.rs:745-772 | the standard's rules admit one result only |
| LlmStream.DrainResumes | src/agent/llm.rs:745-772 | decoding may stop after any byte and resume with the bytes it kept |
| LlmStream.PiecesPartition | src/agent/llm.rs:263-265 | lines contain no newline and joined again give the text |
| LlmStream.PiecesResume | src/agent/llm.rs:263-265 | splitting into lines may stop anywhere and resume with the unfinished line |
| LlmStream.StreamTask.DecodeStreamBytes | src/agent/llm.rs:745-772 | the loop appends exactly the decodable text, keeps exactly the undecided bytes, and drops at least one byte per pass |
| LlmStream.StreamTask.TakeLines | src/agent/llm.rs:263-266 | hands over every complete line and keeps the unfinished one |
| LlmStream.StreamTask.Feed | src/agent/llm.rs:253-266 | the state after a chunk depends on the bytes seen, not on the cuts |
| LlmStream.StreamTask.Finish | src/agent/llm.rs:281-287 | the flush completes the lines of the whole response |
| LlmStream.StreamLines | src/agent/llm.rs:253-299 | for every way of cutting a response into chunks the parser gets the lines of its one-shot lossy decoding: each stretch that a newline ends, cut to its longest prefix that does not end in a carriage return, and the stretch after the last newline without outer whitespace, unless it is blank |
| LlmStream.TrimMeaning | src/agent/llm.rs:284-287 | trimming yields nothing for a blank text, and otherwise the text without its outer whitespace |
| LlmStream.ChunkedDecoding | src/agent/llm.rs:253-299 | the decoded text is the only one the standard allows, and never more than three bytes wait |
| LlmStream.ValidTextSurvives | src/agent/llm.rs:745-772 | a valid response comes out unchanged however it is cut |
| CronTypes.IncrementIsObservedIff | src/cron/scheduler.rs:249-288 | the next reader sees the counter one higher and the limit unchanged if and only if `repeat` is usable |
| CronTypes.ScalarRepeatIsNotCounted | src/cron/scheduler.rs:249-288 | a payload with a scalar `repeat` beside `times` on which the increment is never seen |
| CronTypes.BackoffIsCappedDoubling | src/cron/scheduler.rs:2042-2050 | the backoff is ten seconds doubled per failure, up to one hour, for every number of failures |
| CronTypes.BackoffIgnoresOlderRows | src/cron/scheduler.rs:1420-1436 | reading fifty rows gives the same backoff as reading all |
| CronStatements.CompleteEffect | src/cron/scheduler.rs:1194-1345 | a completion acts if and only if its own run is still running and it commits; it then ends that run and touches no other run or job |
| CronStatements.RolledBackSuccess | src/cron/scheduler.rs:1260-1293 | a successful run of a job for one instant of 2030, completed after it, that leaves both tables as they were |
| CronEnvironment.OutsideLeavesRuns | src/cron/store.rs:117-140 | mirror, pruning and operators never start, end or change a run, and running ones only go with their jobs |
| CronInterleaving.NoRunsIsInv | src/cron/scheduler.rs:1007-1130 | tables without runs are a possible beginning of the interleaved system |
| CronInterleaving.StepKeepsInv | src/cron/scheduler.rs:1007-1130 | every statement of every process keeps: one running row per job, and runs, owners and tokens in step |
| CronInterleaving.MutualExclusion | src/cron/scheduler.rs:1085-1117 | under every interleaving each job has at most one running row |
| CronInterleaving.EndedRunsAreFrozen | src/cron/scheduler.rs:1194-1208 | no statement changes or revives a run that has ended |
| CronInterleaving.TerminalIsFinal | src/cron/scheduler.rs:1330-1345 | a terminal row stays as it is over every run, unless pruned or deleted with its job |
| CronInterleaving.OneCompletionPerRun | src/cron/scheduler.rs:1022-1045 | once a run was completed or reclaimed, every later completion of it leaves both tables unchanged |
| CronInterleaving.StepKeepsMirror | src/cron/store.rs:975 | no statement but an operator's edit lowers the counter of a mirrored job |
| CronInterleaving.CounterNeverDecreases | src/cron/store.rs:975 | over every interleaving of syncs, claims, completions and retirements the counter of a mirrored job never goes down |
| CronInterleaving.NeverRearmed | src/cron/store.rs:975 | over every such interleaving a finished one-shot whose source keeps its expression, or a job at its limit without a next run whose source does not raise the limit, is never enabled or armed |
| CronScheduler.Scheduler.ReclaimCandidates | src/cron/scheduler.rs:1022-1045 | the loop ends exactly the job's reclaimable runs |
| CronScheduler.Scheduler.Claim | src/cron/scheduler.rs:1007-1130 | the method is the claim function that the laws are about |
| CronMeaning.ClaimedIff | src/cron/scheduler.rs:1007-1117 | a claim succeeds if and only if, on the rows: no cutover is pending, the job exists, is not being cut over and has repeats left; for a poll, is on, due and no one-shot more than 120 seconds late; and every running run of it is past its lease and two hours late, without a positive pid, or of a dead owner |
| CronMeaning.ClaimInserts | src/cron/scheduler.rs:1091-1127 | the inserted run and the claim, member by member |
| CronMeaning.ClaimReclaims | src/cron/scheduler.rs:1022-1045 | exactly the abandoned running runs of the job are recorded as failed, with time and error; all other runs stay |
| CronMeaning.ClaimRetires | src/cron/scheduler.rs:906-966 | exactly a free overdue one-shot with a readable payload is retired, member by member; otherwise all jobs stay |
| CronScheduler.RetireEffect | src/cron/scheduler.rs:906-966 | retiring acts if and only if the row is still the observed one, readable, and nothing runs; it touches nothing else, acts once, and no poll claims or changes the job afterwards |
| CronWorld.RefreshEffect | src/cron/scheduler.rs:1181-1192 | a refresh moves the lease of the claim's own run, only while it runs, and no other row; no claim within 30 minutes takes the run away |
| CronScheduler.Scheduler.RunDueJobs | src/cron/scheduler.rs:983-1005 | the poll's loop is the poll function that the laws are about, error included |
| CronPoll.PollIsPerJob | src/cron/scheduler.rs:983-1005 | a listed job gets its turn if and only if no job before it is an unreadable overdue one-shot, and the jobs that get theirs are claimed exactly as if each were alone |
| CronPoll.StarvationLasts | src/cron/scheduler.rs:997-1001 | a job listed after such a one-shot is not reached by the next poll either |
| CronScheduler.Scheduler.CountLeadingFailures | src/cron/scheduler.rs:1432-1436 | the number of failures before the first other status |
| CronScheduler.Scheduler.CompleteRun | src/cron/scheduler.rs:1194-1505 | both completions are the completion function that the laws are about |
| CronMeaning.CompletionWrites | src/cron/scheduler.rs:1246-1500 | the job row after a completion, member by member: counter and last result, the schedule's instant after a recurring success, off and unarmed at the end, untouched schedule after a manual run |
| CronMeaning.SuccessWaitsForSchedule | src/cron/scheduler.rs:1275-1295 | after a recurring success the next run is the schedule's instant, and over every run no poll before it claims the job unless somebody else arms it earlier |
| CronMeaning.PauseStops | src/cron/scheduler.rs:837-847 | a paused job is off and unarmed, nothing else changes, and no poll claims it |
| CronMeaning.ResumeArms | src/cron/scheduler.rs:853-869 | a resumed job is on and armed, and a later poll claims it exactly if nothing else forbids it |
| CronMeaning.PruneRemoves | src/cron/store.rs:117-140 | pruning removes exactly the runs that ended, or else started, before the cutoff |
| CronWorld.ClaimEffect | src/cron/scheduler.rs:1007-1130 | what one claim does to each table: reclaims, then retires or inserts, never both |
| CronWorld.NoRunsIsInv | src/cron/scheduler.rs:1007-1130 | tables without runs are a possible beginning of a run with atomic claims |
| CronWorld.ExecKeepsInv | src/cron/scheduler.rs:1007-1208 | over every run with atomic claims, whatever else writes the tables and whatever the clocks: one running row per job, runs and owners in step, leases counted from the last refresh, and no claim at the limit |
| CronWorld.StepKeepsUndisturbed | src/cron/scheduler.rs:1246-1306 | as long as nobody else changes expression, payload or switch of a job, its running run was claimed on the row as it still is |
| CronRefinement.ClaimIsStatements | src/cron/scheduler.rs:1007-1130 | a claim as a whole equals a legal sequence of its own statements |
| CronRefinement.CoarseRefinesFine | src/cron/scheduler.rs:983-1208 | every run with atomic claims, outside events included, is a run of the interleaved system with the same tables and claims |
| CronTiming.ReclaimedOnlyWhenStale | src/cron/scheduler.rs:22-60 | over every run, whatever else happens to the tables, a run is taken away no earlier than 30 minutes after its last refresh, and 150 if its owner is alive |
| CronTiming.RefreshedRunSurvives | src/cron/scheduler.rs:1181-1192 | over every run, a run refreshed before each claim of its job at gaps under 30 minutes goes on running unless its job is deleted |
| CronTiming.OneShotRunsOnce | src/cron/scheduler.rs:1065-1083 | from the moment it is armed, with whatever runs before, a one-shot is claimed at most once more, within 120 seconds after it was due, whether or not the owner survives, over every run in which others keep its expression and payload and do not re-arm it |
| CronTiming.CompletionDisarmsIff | src/cron/scheduler.rs:1260-1274 | the completion of a polled one-shot ends its run, and disarms it if and only if the row still has the claimed expression and payload |
| CronTiming.EditedOneShotRunsTwice | src/cron/scheduler.rs:1260-1274 | a one-shot whose source is edited while it runs, and which is claimed again after it succeeded |
| CronTiming.EditedOneShotIsMissed | src/cron/scheduler.rs:906-966 | the same one-shot polled after its window: marked as missed although it succeeded |
| CronTiming.LostOneShotIsRetired | src/cron/scheduler.rs:906-966 | over every such run, the poll that takes a dead owner's one-shot away leaves nothing running and retires the job as missed, if and only if it is still armed, its payload is readable and no cutover is pending for it |
| CronRepeats.CompletionLandsIff | src/cron/scheduler.rs:1246-1306 | a completion that ends its run writes payload and counter to the job row if and only if the row is the claimed one and, for a schedule that moves on, switched on; otherwise it changes no job |
| CronRepeats.RepeatCountAndLimit | src/cron/scheduler.rs:1058-1063 | over every run in which others keep the job's expression, payload and switch: the counter is its initial value plus the owner-finalised runs, never passes the larger of limit and initial value, and at the limit no claim succeeds |
| CronRepeats.CountedFailuresAreTrailing | src/cron/scheduler.rs:1420-1436 | the failures counted in the newest fifty rows are the true trailing failures, up to fifty |
| CronRepeats.FailureBacksOff | src/cron/scheduler.rs:1399-1500 | over every run, a scheduled failure whose update lands sets the next run to the later of the schedule and the backoff for the number of trailing failures on record, reclaimed runs included |
| HermesMerge.PayloadMergeSettles | src/cron/store.rs:975 | a merged payload has the source's definition, the larger counter, and is left alone by a second merge |
| HermesMerge.MergeIsIdempotent | src/cron/store.rs:975 | merging the same source again at any instant changes only the stamp |
| HermesMerge.InsertIsIdempotent | src/cron/store.rs:975 | merging into a freshly inserted row changes only the stamp |
| HermesSync.Synchronizer.ImportEntries | src/cron/store.rs:937-982 | imports the jobs of a store in order, with the set of live ids and the number of rows written |
| HermesSync.Synchronizer.DeleteStale | src/cron/store.rs:983-994 | deletes exactly the mirrored rows of this store that are no longer live, with their runs |
| HermesSync.Synchronizer.Sync | src/cron/store.rs:926-997 | all stores in order, skipping unreadable ones |
| HermesMeaning.NewJobIsInserted | src/cron/store.rs:937-982 | a valid source job without a row gets its own expression, payload, switch and creation time, armed for its own next run or else the schedule's |
| HermesMeaning.MirroredRowIsUpdated | src/cron/store.rs:975 | the mirrored row of a valid job, member by member: the larger counter and the row's last result; a finished or exhausted one keeps switch and stays unarmed; another one is armed for the source's next run if and only if expression, terms or switch differ, and keeps its own otherwise |
| HermesMeaning.UnlistedRow | src/cron/store.rs:983-994 | a row that no store lists is deleted if and only if it was mirrored from a store that could be read |
| HermesMeaning.ImportedCount | src/cron/store.rs:979-981 | the number reported for a store is that of its valid jobs whose row is new or mirrored |
| HermesMeaning.OneShotIsArmedAndRuns | src/cron/store.rs:962-970 | a one-shot for 2030 is armed by a synchronisation into empty tables and claimed by a poll at its instant |
| HermesSyncLaws.OtherAuthoritiesUntouched | src/cron/store.rs:926-997 | a row with another authority is never updated or deleted |
| HermesSyncLaws.SyncEntry | src/cron/store.rs:926-997 | what a whole synchronisation does to the row of one source job: upserted if the job is valid at that instant, deleted if it is not |
| HermesSyncLaws.SyncFixesAll | src/cron/store.rs:926-997 | after a synchronisation of any tables every mirrored row follows a source job that is valid at that instant, and none is left without one |
| HermesSyncLaws.OtherStoreStaysFixed | src/cron/store.rs:926-997 | synchronising one store leaves the rows of the others following theirs |
| HermesSyncLaws.SettledRowSync | src/cron/store.rs:926-997 | on tables that follow their stores, a row is deleted if and only if its schedule has run out, reset if and only if it is switched against its source, and otherwise at most restamped |
| HermesSyncLaws.SettledRunsSync | src/cron/store.rs:983-994 | runs are deleted exactly with their jobs |
| HermesSyncLaws.SyncIsIdempotentIff | src/cron/store.rs:926-997 | any number of resynchronisations as the clock goes on equals one, apart from `updated_at`, if and only if no mirrored schedule has run out by the last of them; if one has, exactly its rows and their runs are gone |
| HermesSyncLaws.ExhaustedScheduleIsDeleted | src/cron/store.rs:378-389 | a job with one instant left whose row is there before it and gone after it |
| HermesSyncLaws.DuplicateIdsResetNextRun | src/cron/store.rs:936-982 | a store with two definitions under one id resets the next run at every synchronisation |
| HermesHistory.RetirementKeepsTrack | src/cron/scheduler.rs:906-966 | a one-shot retired as missed still follows its source |
| HermesHistory.HistoryKeepsSettled | src/cron/store.rs:926-997 | every history of claims, retirements, completions, pauses, resumptions, refreshes and pruning keeps the rows following their source |
| HermesHistory.ResyncIsSpared | src/cron/store.rs:975 | resynchronising a job that follows its source is among the outside events that the laws on repeats and one-shots allow |
| HermesHistory.SyncAfterHistory | src/cron/store.rs:926-997 | after a synchronisation of any tables and any such history, the next one deletes exactly the rows whose schedules have run out, resets exactly those switched against their source, and keeps schedule, counter and results of all others |
| HermesHistory.OverriddenIff | src/cron/scheduler.rs:1420-1485 | a completion switches a row against its source if and only if a recurring run fails and has no next instant in UTC |
| HermesHistory.CompletionOutcome | src/cron/store.rs:926-997 | the row of a completed run is deleted by the next synchronisation if its own schedule has run out, armed again if the completion switched it off and there is an instant left, and kept in all other cases |
| HermesHistory.ZoneMismatchRearms | src/cron/scheduler.rs:1466-1485 | a failed run that switches a job off and a synchronisation that arms it again |
| OmoTurn.KnownNamesAskNoApproval | src/agent/omo_protocol.rs:117-121 | none of the notification names the loop handles is taken for an approval request |
| OmoTurn.OmoBackend.Submit | src/agent/omo_backend.rs:529-570 | a submission is written if and only if nothing is recorded or what is recorded is too old; a failed write gives ownership up |
| OmoTurn.SubmitsIff | src/agent/omo_backend.rs:52-54 | a submission is written if and only if nothing is recorded for the session or it is older than the total timeout plus 600 seconds |
| OmoTurn.OmoBackend.ExecuteTurn | src/agent/omo_backend.rs:622-1305 | the loop is the step function that the laws are about, pass by pass |
| OmoTranscript.TurnMeaning | src/agent/omo_backend.rs:853-1298 | by frame index: the text is what the last reset supplies and the turn's own deltas after it, tools are counted by name on their first start, each emission shows the text or the tools so far, and the turn ends with a given end if and only if some frame is the first whose status, text, tools and denials say so |
| OmoTranscript.LoopMeaning | src/agent/omo_backend.rs:622-1298 | the loop over every sequence of passes agrees with that on the frames that reach the handler |
| OmoTranscript.PassEndIff | src/agent/omo_backend.rs:622-890 | timers, socket and drain end a turn exactly under the listed conditions on deadlines, read and drained reply |
| OmoTranscript.DrainState | src/agent/omo_backend.rs:700-790 | a drain adds one final chunk with what it collected, if and only if it delivers |
| OmoTranscript.AckIsRecorded | src/agent/omo_backend.rs:908-922 | the acknowledgement completes the session's entry with its turn and keeps its age |
| OmoTranscript.FirstWordMeaning | src/agent/omo_backend.rs:1047-1056 | a tool is counted under the first word of its name |
| OmoTurn.OmoBackend.FinishCancel | src/agent/omo_backend.rs:1390-1477 | an acknowledged cancellation removes the entry it was for and no other |
| OmoTurnLaws.ReadLimitIsFirstDeadline | src/agent/omo_backend.rs:840-850 | the read limit has passed if and only if one of the deadline checks at the loop head fires |
| OmoTurnLaws.TimeoutEndsTurn | src/agent/omo_backend.rs:622-830 | the pass after a timed-out read ends the turn, and with an error unless the drain after the work deadline finds it completed with something to show |
| OmoTurnLaws.TimeoutMayDeliver | src/agent/omo_backend.rs:645-818 | a timed-out read after which the turn is delivered |
| OmoTurnLaws.NoIdlePasses | src/agent/omo_backend.rs:622-850 | over every run of the loop, every pass but the last has consumed a message |
| OmoTurnLaws.NonInterference | src/agent/omo_backend.rs:1001-1021 | without the turn-bearing frames of other threads or turns, or ahead of the acknowledgement, text, counts, chunks, ownership and outcome are the same |
| OmoTurnLaws.NoiseIsIrrelevant | src/agent/omo_backend.rs:1001-1021 | two frame sequences that differ only in such frames drive the turn alike |
| OmoTurnLaws.LoopIsFold | src/agent/omo_backend.rs:622-1305 | while no timer fires, the loop's text, counts, chunks, ownership and outcome are what the frames alone determine |
| OmoTurnLaws.LedgerMeaning | src/agent/omo_backend.rs:1036-1040 | the counted ids are exactly those whose first start in the sequence was a tool |
| OmoTurnLaws.ToolAndChunkAccounting | src/agent/omo_backend.rs:622-1250 | after every run of the loop, timers and drain included, the tool total is the sum of the per-tool counts and the number of distinct ids first started as tools; chunks are numbered from 0 without gaps and only the last may be final |
| OmoOwnership.EmptyIsInv | src/agent/omo_backend.rs:68-76 | a gateway without turns is a possible beginning |
| OmoOwnership.PassOwnership | src/agent/omo_backend.rs:622-1305 | one pass takes the session's entry away if and only if it sees a start error, the turn's own terminal frame, or a confirmation after the deadline; other sessions keep theirs |
| OmoOwnership.UnresolvedEndsKeepOwnership | src/agent/omo_backend.rs:1299-1304 | a pass that ends in a disconnect, a broken or unreadable message, a missing acknowledgement, an idle timeout, a denial abort, a turn error or an acknowledgement without a turn id is never a release |
| OmoOwnership.OwnershipPersists | src/agent/omo_backend.rs:529-570 | whatever is neither a write nor a release of the session leaves its entry with its age: other sessions, dropped runs, failed or outdated cancellations |
| OmoOwnership.NoDoubleSubmission | src/agent/omo_backend.rs:529-570 | between two consecutive writes for one session its entry is released (failed write, start error, own terminal frame, interrupt confirmed for that very entry), or the first is older than the total timeout plus 600 seconds |
| RestartCircuit.FullWindow | src/agent/omo_daemon.rs:335-345 | three attempts lie in the window if and only if the third last one does |
| RestartCircuit.AttemptsAreSpread | src/agent/omo_daemon.rs:296-347 | for every non-decreasing sequence of times any four consecutive attempts span at least 60 seconds |
| RestartCircuit.OpensIff | src/agent/omo_daemon.rs:341-345 | an exit opens the circuit if and only if the third last attempt is less than 60 seconds ago |
| RestartCircuit.DecisionMeaning | src/agent/omo_daemon.rs:297-385 | what an exit leads to: a restart unless shut down, served or three attempts in the last 60 seconds, and each reason for giving up exactly |
| RestartCircuit.StoppedIsFinal | src/agent/omo_daemon.rs:297-306 | once stopped, no later exit causes a restart |
| RestartCircuit.PopExpired | src/agent/omo_daemon.rs:335-340 | popping from the front leaves exactly the attempts of the window |
| RestartCircuit.Supervisor.SpawnWatcher | src/agent/omo_daemon.rs:292-389 | the watcher with its deque of at most three decides as the policy on all attempts does, and the deque is the attempts of the last 60 seconds in order |
| StorageKey.ReadComponentAt | src/dashboard.rs:1375-1397 | reads one component, never past the input, and advances |
| StorageKey.ReadValues | src/dashboard.rs:1399-1409 | the loop reads exactly the components that the grammar finds |
| StorageKey.ParseStorageKey | src/dashboard.rs:1374-1422 | the nested loops compute the parse function that the laws are about |
| StorageKey.ReadingUndoesWriting | src/dashboard.rs:1374-1409 | any non-empty list of components, whatever they contain, is read back |
| StorageKey.WritingIsInjective | src/models/session.rs:75-108 | different component lists are written differently, whatever their lengths |
| StorageKey.KeyRoundTrip | src/models/session.rs:83-108 | the dashboard reads a stored key back to its canonical form |
| StorageKey.StoredExample | src/models/session.rs:83-108 | one key written out byte by byte |
| StorageKey.KeySurvivesIff | src/dashboard.rs:1374-1422 | that is the key itself if and only if it has no guild or no sender |
| StorageKey.GuildSenderIsLost | src/models/session.rs:92-96 | a guild key that comes back without its sender |
| StorageKey.StoredAlikeIff | src/models/session.rs:83-108 | two keys are stored alike if and only if they agree on everything but the sender in a guild |
| StorageKey.ValuesAreText | src/dashboard.rs:1374-1409 | values cut out of a string are themselves valid strings |
| StorageKey.StrictAcceptsIff | src/models/session.rs:112-244 | the strict parser accepts exactly the lists of five or six components with platform, channel, and a sender unless there is a guild, and returns their key |
| StorageKey.ParsersAgree | src/models/session.rs:112-244 | on every input the dashboard accepts, the strict parser returns the canonical key, or refuses exactly because of a trailing bar |
| StorageKey.OnlyStrictAcceptsIff | src/models/session.rs:120-174 | of what the strict parser accepts, the dashboard refuses exactly the keys with a plus sign in a length or without a sender |
| StorageKey.StrictRoundTrip | src/models/session.rs:110-244 | the strict parser reads every stored key back to its canonical form |
| WavDecoder.AppendSamples | src/discord/attachments.rs:39-42 | appends the little-endian samples of a chunk |
| WavDecoder.DecodeWavPcm | src/discord/attachments.rs:18-52 | the walk by position is the walk over chunks, on every input, with every slice in bounds |
| WavDecoder.SamplesMeaning | src/discord/attachments.rs:39-42 | one sample per whole pair of bytes, low byte first, in two's complement |
| WavDecoder.DecodedMeaning | src/discord/attachments.rs:18-52 | every input with both marks and 44 bytes is a list of complete chunks and a rest; it decodes to rate and channels of the last readable format chunk, or 16000 and 1, and the samples of all data chunks in order, or to nothing without samples |
| WavDecoder.WalkWritten | src/discord/attachments.rs:27-45 | the walk sees exactly the chunks that were written |
| WavDecoder.WavRoundTrip | src/discord/attachments.rs:18-52 | a file with one format and one data chunk among any unknown ones decodes to the rate, channels and samples it was written from |
| WavDecoder.UnknownChunksChangeNothing | src/discord/attachments.rs:27-45 | removing all unknown chunks from any file does not change what it decodes to, as long as the 44 bytes that the decoder insists on remain |
| WavDecoder.PaddedChunkIff | src/discord/attachments.rs:27-45 | a file with an unknown chunk stored with RIFF padding before the data decodes to its audio if and only if the size of that chunk is even |
| WavDecoder.OddChunkHidesData | src/discord/attachments.rs:27-45 | a file with an odd chunk that decodes to nothing |
| WorkspaceSlug.Sanitize | src/agent/agent_workspace.rs:11-27 | the loop yields the lower-cased words of the text joined by single hyphens |
| WorkspaceSlug.FixedIffClean | src/agent/agent_workspace.rs:11-27 | sanitising leaves a text alone if and only if it has slug characters only and no doubled or outer hyphen |
| WorkspaceSlug.SanitizeIsIdempotent | src/agent/agent_workspace.rs:11-27 | sanitising twice is sanitising once |
| WorkspaceSlug.SanitizeKeepsLetters | src/agent/agent_workspace.rs:11-27 | sanitising keeps every letter, digit and underscore in order |
| WorkspaceSlug.OwnerMeaning | src/agent/agent_workspace.rs:41-51 | bots come first, then cron jobs, then the dashboard, then users |
| WorkspaceSlug.SlugMeaning | src/agent/agent_workspace.rs:53-75 | a plain slug is the category and the sanitised value; a hashed one has as much of it as leaves room for the digest in 48 characters, and the digest |
| WorkspaceSlug.SlugIsSafe | src/agent/agent_workspace.rs:40-76 | every slug has at most 48 characters from `a-z0-9_-`, and no doubled or outer hyphen unless the owner is the user `cron:` |
| WorkspaceSlug.BareCronSlug | src/agent/agent_workspace.rs:43-44 | the slug of the user `cron:` is `cron-` |
| WorkspaceSlug.SameSlugSameCategory | src/agent/agent_workspace.rs:40-76 | owners of different categories never share a slug |
| WorkspaceSlug.PlainSlugsCoincideIff | src/agent/agent_workspace.rs:52-75 | two slugs without a digest coincide if and only if category and lower-cased value agree |
| WorkspaceSlug.HashedSlugIsShared | src/agent/agent_workspace.rs:56-72 | for every owner with a hashed slug there is another with the same slug |

## Left out

Assumptions that the statements carry:

- Job payloads keep the members that the scheduler and the mirror read or write and one opaque
  remainder; comparing payload texts is comparing payload values.
- Run ids and claim tokens are fresh; the interleaved model otherwise lets any process issue any
  statement at any time, with any clock.
- Deleting a job deletes its runs, as the schema's foreign key does.
- The clock, process liveness, the answer of the newest-rows query, the schedule's next instant,
  content filters, renderings, Unicode lower-casing and the digest are parameters.
- CronInterleaving.CounterNeverDecreases: assumes that the counter stays below the 64-bit limit,
  where the increment would wrap.
- CronInterleaving.NeverRearmed: the same.
- CronRepeats.RepeatCountAndLimit: nobody else changes the job's expression, payload or switch; what
  a completion does to a changed row is CompletionLandsIff.
- CronRepeats.FailureBacksOff: start times of the job must grow in insertion order, so the tie-break
  by run id never decides; failures that were pruned are not counted.
- CronTiming.OneShotRunsOnce: clocks do not run backwards between claims, refreshes and completions
  of any process; only polls claim the job; others keep its expression and payload and leave or clear
  its next run. What happens otherwise is CompletionDisarmsIff.
- CronPoll.PollIsPerJob: nothing else writes the tables during the poll.
- HermesMerge.Merge: counters and limits are non-negative integers or absent; SQL casts of other
  JSON values, and the case-insensitive `LIKE 'once:%'` on expressions spelt otherwise, are not modelled.
- HermesSyncLaws.SyncIsIdempotentIff: ids are distinct within a store, which the program does not
  check (DuplicateIdsResetNextRun shows what happens otherwise), and across stores, which the
  profile prefix ensures as long as profile names hold no colon; a schedule that has run out stays so; files that validation reads beside
  the store do not change.
- HermesHistory.SyncAfterHistory: the same; counters are below the signed 64-bit limit, where SQL
  saturates and the scheduler does not; payloads, expressions and authorities are not edited.
- OmoTurnLaws.NonInterference: timers aside, and not in the drain after the work deadline, which
  does not filter frames.
- OmoTurnLaws.ToolAndChunkAccounting: counts and sequence numbers are unbounded, so saturation is not modelled.
- OmoOwnership.NoDoubleSubmission: one live run per session, which is what the session actor provides.
- StorageKey.KeyRoundTrip: strings are shorter than half the address space, as every allocation is.
- WorkspaceSlug.SlugIsSafe: Unicode lower-casing yields the empty string for that one only.
- WorkspaceSlug.HashedSlugIsShared: Unicode lower-casing leaves lower-case ASCII text alone.
- WavDecoder.WavRoundTrip: sizes within the 32-bit field; the total size in the header is ignored by the decoder.

Not modelled, most of it because it would only add easy members:

- Tool-call fragments in streamed responses, their JSON, and transport errors in the stream.
- What the drain collects, approval replies, delivery, the ledger, persistence and acknowledgement
  commands in a turn; connecting, initialising and thread resolution; the retry before submission.
- Cron execution and delivery, stored outputs, incidents, notepads, script timeouts, cutover receipts
  beyond their being pending.
- Stored payloads that are not JSON in the mirror's SQL, which fails the synchronisation.
- Validation of source jobs apart from the next instant; cron and interval expressions, time zones
  and timestamps.
- HTTP routes, WebSocket plumbing, process spawning, files, environment parsing and the web interface.
- Floating-point code, regular-expression guards and prompt scanning.
- Messages inside errors.
