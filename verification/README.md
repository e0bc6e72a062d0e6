# Verification models of Cogni's stateful core

This project models the parts of Cogni whose correctness rests on state kept over
many steps, and proves what those parts promise. It is written in Dafny 4.11;
`dafny verify dfyconfig.toml` checks all of it.

Where the program changes things in place, so does the model: classes with fields,
arrays written inside loops, methods with one postcondition per exit. Each of these
is tied to a specification made of functions and predicates, and the laws are lemmas
about that specification. What the program does not decide itself is left open: a
file step may fail before or after its effect, a proposer or evaluator may raise, a
thread may be scheduled at any point, an action score may pick any index.

## What is proved

**Tensor service** (`TensorMachine`, `TensorProtocol`, `TensorService`, `TensorRaces`).
Parent and worker share two bounded queues. Submitting holds one lock, receiving
another, so each queue operation and each look at the two tables is a step of its
own, and the steps interleave freely. `TensorMachine` is the sequential machine with
a `paused` flag; what it answers is pinned down in terms of the requests alone
(`InferAnswer`, `StatusIff`, `StoppedIff`). In every interleaving (`Safe`), an answer delivered for request k is the
one that this machine gives to k after requests 1 to k; every request is in one place,
and is delivered, dropped or rejected at most once; what is in flight stays within the
bound, so neither queue ever fills; and completed ids are pending ids. Two races exist:

- `submit` puts the request on its queue before it enters it in `_pending`
  (`cogni_os/tensor_service.py:564-570`). A receiver that meets the answer in between
  raises "worker returned an unknown request id", and does so in no other case.
- `receive` checks that an id is pending and marks it in a second step
  (`cogni_os/tensor_service.py:480-491`). If a drain drops the id in between, the mark
  brings it back, and a slot is lost for good.

What the races lose is only that `_pending` is exact and bounded and that no answer is
rejected (`Exact`); each step keeps this exactly when it is not the second half of a race.
The class `TensorService` is the parent in the form of the source: its `SubmitCode` and
its `Receive` let the other thread and the worker move between any two steps. An answer may
wait in `_completed` for a request that was marked as abandoned; a run shows it. Without
that race, a request that was given up is never answered (`GivenUpIsNeverDelivered`).

**Journal, promotion, night** (`Disk`, `Journal`, `BackupJournal`, `Promotion`,
`Rhythm`, `NightCycle`, `Startup`). `Disk.FileSystem` takes one disk step at a time and
records every disk on the way, so that a statement about the trace is a statement about
a crash at any point. `Settled` is what recovery will make of a disk: before-bytes where
a promotion is open, the live bytes elsewhere. Operations that should be invisible
(preparing, rolling back, evicting, recovering) leave `Settled` alone at every crash
point (`Quiet`); a promotion moves it at one point, from the old files to the old files
with the candidate (`Crashable`). Recovery brings the live files to `Settled`. The night
cycle and the start are built on these methods. `Startup.Lifetime` runs whole sessions,
each with its start, all its nights (also after nights that ended in an exception) and a
failure of the power at a given disk step, and returns the chain of stages it went
through, each night with the mode and counters that it found and left;
`Startup.EveryLifetimeEvolves` is the law over every such chain.

Safety is stated for disks on which any step may fail. On a working disk the outcome is
determined as well: `Promotion.Due` and `Recorded` say what becomes of a proposal and of
its record, `NightCycle.NightDue` what becomes of a night and after how many candidates,
`Startup.Booted` what becomes of a start, and the methods are proved to do just that.
`NightCycle.NightStopsFirst` says the same without these functions. Where the mode machine
is used, the contracts name the modes that are passed on the way (`Rhythm.Travelled`).

The exceptions matter as much as the rule:

- `prepare` may raise after its metadata is in place (`cogni_flow/production.py:506`).
  `validate_and_promote` then has no record to roll back and returns to EVOLUTION with an
  open record. A promotion of the same file that commits later is at its mercy:
  recovery keeps a committed candidate exactly when no other record was open on the file
  (`Promotion.CommittedIsKeptIff`; a record whose backup is the candidate itself does no harm). With the lost record open, recovery raises if another
  candidate was committed (`LostRecordBlocksRecovery`), and silently puts the base back if
  the same candidate was (`LostRecordUndoesCommitment`).
- The crash statements of promotion and night are therefore for files on which no
  promotion is open. Every start that succeeds leaves none open, and a night leaves one
  open only if it ends in an exception while file steps fail (`Startup.SmoothIsClear`).
- The log read stands before the `try` of the night cycle (`cogni_flow/cycle.py:43`): if
  it raises, the mode stays EVOLUTION.
- The audit in the handler (`cogni_flow/cycle.py:96`) may raise itself; the promise about
  the final mode is for the case that it does not.
- Recovery needs at most one open record per file; `Sound` says so.

**Search** (`AncestorRing`, `SearchTree`, `TreeSearch`). The ring of the last entries is
compared with the unbounded lineage log. The tree satisfies four laws after every
simulation: an edge is visited as often as its child, an expanded node once more than
its edges, an edge's value sum is the sum of the leaf values evaluated at its child plus
the discounted sums below, and what was never reached is untouched. During a backup the
laws hold up to a debt at one node of the path, which each turn of the loop moves one
node up. None of the four internal errors of the search is ever raised; the search raises
exactly if one of its callbacks does, and its telemetry says of the final tree what was done.

**AFlow** (`WorkflowGraph`, `WorkflowValidator`, `Archive`, `ArchiveSearch`,
`SeedMixer`). The validator accepts exactly the workflows that meet schema and budget
and have no cycle, where a cycle is a closed walk over the edges. The archive keeps
subtree sums, left-to-right strict maxima, validity, distinctness and order, and every
iteration is in it or among the rejections. The seed
mixer is injective in the iteration for every seed.

**Prompt framing** (`PromptFraming`, `PromptTranscript`). After escaping no fixed control
token is left, and a reader recovers the whole transcript from the rendered prompt, each
text exactly as it was neutralized. A tokenizer's own extra tokens are arbitrary text, and
for them two promises have an exact limit. For any list of tokens, escaping a second time changes nothing if and only if no
token with a bracket occurs in what the first time left. For one token that has a bracket
and no wide one, this holds of every text, and the token is gone from every text, if and
only if the token has no border that is free of brackets. Both ways to fail are shown: a
token with such a border, and tokens with wide brackets, one of which escaping writes.

**Failure daemon** (`FailureDaemon`). What was accepted and saved is counted by epoch, from
one start to the next. For a stop that has joined its writer, the traces of that writer's
epoch are saved completely and in the order of submission exactly when no write failed;
and if no start came after the beginning of the stop, it returns without an error exactly
in this case. A start in between breaks this in two ways, each shown as a run: the stop
forgets the new writer (`cogni_flow/daemon.py:124-131`), or it returns without an error
although its epoch lost a failure, since the start clears `_writer_error`
(`cogni_flow/daemon.py:92`). A third way needs no overlap: a stop that finds no thread
returns at once without an error (`cogni_flow/daemon.py:107-111`), so a second stop is
silent about the loss that the first one reported; the epoch is complete at this exit
exactly when no writer error is noted. The lifetime counters add up in every run.

**Line reader, job events, conversations** (`LineReader`, `JobEvents`, `Conversation`).
The chunked reader gives the lines of the whole stream; a job succeeds only for the five
phases in order and one result; trimming keeps the longest end of a conversation that
fits, and never loses the pending turn or the exchange just completed.

**Elastic weight consolidation** (`EwcMerge`, `EwcMoments`, `EwcLifecycle`). Merging old
snapshots to the budget keeps the penalty up to a constant, over every run, if every
Fisher entry is zero or reaches the guard. Without that it is false: the merged anchor
divides by the larger of Fisher sum and guard (`cogni_core/adaptation.py:513-517`), so a
sum strictly between zero and the guard pulls the anchor towards zero. The merge of two
snapshots is exact if and only if no shared entry is of this kind with weighted anchors
that do not cancel. A whole run, in which harmful merges may cancel, is exact if and only
if the merged snapshot keeps the sums of Fisher entry times anchor.

## How to read the statements

- A lemma whose name ends in `Iff`, `IffBenign` or the like states both directions.
- Statements of the form "every crash point recovers to X" are about every disk recorded
  in the trace between the start and the end of the call, whatever steps failed.
- `reliable` is a flag of the disk: if it is set, no file step raises (a working disk).
  Statements about safety do not assume it; only statements that something succeeds do.
- Conditions on a thread schedule (`Benign`, `Apart`, `Own`) name one step and its state.
  No statement assumes fairness.
- `Clear` says of the disk on which a night begins that no promotion is open on a file
  that one of its candidates is for; `Smooth` says of earlier nights why that is so.

## Model

| member | source | states |
|---|---|---|
| Rhythm.RhythmController.constructor | cogni_flow/rhythm.py:62-68 | a new controller is in INFERENCE with both counters at zero and an empty history |
| Rhythm.RhythmController.TransitionTo | cogni_flow/rhythm.py:70-87 | a mode change succeeds exactly when the table allows it, checkpointing finds no request and inference finds no task; then it is the one new entry of the history, and a refused one changes nothing |
| Rhythm.RhythmController.OpenInferenceSlot | cogni_flow/rhythm.py:90-94 | a request is admitted exactly in INFERENCE, and counted |
| Rhythm.RhythmController.OpenEvolutionSlot | cogni_flow/rhythm.py:111-120 | evolution work is admitted exactly in EVOLUTION, VALIDATING and PROMOTING, and counted |
| Rhythm.RhythmController.EnterEvolution | cogni_flow/rhythm.py:131-152 | the night starts exactly from INFERENCE without requests when the checkpoint returns; from INFERENCE, open requests lead over DRAINING back to INFERENCE, a failed checkpoint over DRAINING, CHECKPOINTING and ROLLING_BACK back to INFERENCE, an interrupted one stops in CHECKPOINTING, with exactly these history entries; from any other mode nothing changes |
| Rhythm.RhythmController.ResumeInference | cogni_flow/rhythm.py:154-158 | the day resumes exactly from EVOLUTION or PROMOTING without open tasks, by one change to INFERENCE; otherwise nothing changes |
| Rhythm.StepKeepsInv | cogni_flow/rhythm.py:74-158 | every locked region keeps the exclusion of day and night, counters equal to the open slots, and a history that walks the table |
| Rhythm.SlotKeepsInv | cogni_flow/rhythm.py:89-129 | opening and closing a slot, of either kind and by any thread, keeps the exclusion of day and night and the counters equal to the open slots |
| Rhythm.EveryRunExclusive | cogni_flow/rhythm.py:22-158 | any sequence of locked regions of any number of threads keeps that invariant |
| Rhythm.EveryReachableExclusive | cogni_flow/rhythm.py:22-158 | requests and tasks are never both active, and each kind is active only in its modes, in every reachable state |
| Rhythm.EveryHistoryIsOrderly | cogni_flow/rhythm.py:22-52 | in every reachable state a promotion was preceded by a validation out of EVOLUTION, and the way from INFERENCE to EVOLUTION is drain, checkpoint, night, in this order |
| Rhythm.TaskBlocksInference | cogni_flow/rhythm.py:81-84 | while one thread keeps an evolution slot open, no inference request starts and the mode never returns to INFERENCE, whatever other threads do |
| TensorMachine.AnswerPrefix | cogni_os/tensor_service.py:231-350 | the answer to a request depends on the requests before it only, never on later ones |
| TensorMachine.PausedIsLastSwitch | cogni_os/tensor_service.py:231-295 | the paused flag is decided by the most recent accepted PAUSE or RESUME alone |
| TensorMachine.InferAnswer | cogni_os/tensor_service.py:297-342 | an INFER is answered by PAUSED exactly if the last accepted switch before it is a PAUSE; a result that is not empty is the finite output of the module for an INFER outside a pause with a finite payload that is not empty, and such an output is always the result |
| TensorMachine.StatusIff | cogni_os/tensor_service.py:263-347 | each other status is answered exactly on its inputs: invalid opcode, invalid payload of a control or inference request or of the output, exception of the module, and success |
| TensorMachine.StoppedIff | cogni_os/tensor_service.py:288-296 | the worker is to exit exactly from the first accepted STOP on |
| TensorService.TensorWorker.Serve | cogni_os/tensor_service.py:263-347 | one pass of the worker loop gives the answer and the flag of the sequential machine, whose answers `InferAnswer` and `StatusIff` pin down |
| TensorService.TensorWorker.Run | cogni_os/tensor_service.py:231-350 | the worker loop answers a backlog in order exactly as the sequential machine; it exits exactly at the first accepted STOP, and answers PAUSED to exactly those INFER requests before which the last accepted switch is a PAUSE |
| TensorProtocol.PopKeepsFifo | cogni_os/tensor_service.py:573-589 | the next response on the wire is the sequential answer to the next id |
| TensorProtocol.StepKeepsSafe | cogni_os/tensor_service.py:462-589 | every interleaved step of submit, worker, drain, receive or timeout, races included, keeps the answers sequential, every request in one place, what is in flight within the bound, and every id in flight pending unless it is being recorded |
| TensorProtocol.EveryRunIsSafe | cogni_os/tensor_service.py:462-589 | every interleaving keeps all of that |
| TensorProtocol.StepKeepsInvIffBenign | cogni_os/tensor_service.py:462-589 | a step that finds the pending table exact leaves it exact, exactly when it is not the second half of one of the two races between the locks |
| TensorProtocol.UnknownIdIffWindow | cogni_os/tensor_service.py:496-501 | in every reachable state, races included, the id in the hand of receive is unknown exactly while its submitter has put it and not yet recorded it; a drain never meets an unknown id |
| TensorProtocol.CompletedIsPending | cogni_os/tensor_service.py:478-505 | in every reachable state, races included, completed ids are pending, and between submissions so is everything in flight |
| TensorProtocol.PendingIsInFlight | cogni_os/tensor_service.py:555-571 | as long as no race has occurred, the pending ids between submissions are exactly the ids in flight, and no more than the bound |
| TensorProtocol.QueuesNeverFill | cogni_os/tensor_service.py:555-571 | in every reachable state, races included, the two queues together hold no more than the bound, which is below the capacity of either, so no put meets a full queue and the worker never waits to answer |
| TensorProtocol.BenignRunsKeepInv | cogni_os/tensor_service.py:462-589 | every interleaving without such a race also keeps the pending table exact and bounded, and rejects no answer |
| TensorProtocol.DeliveredIsSequential | cogni_os/tensor_service.py:462-505 | in every interleaving, races included: what receive returned for request k is the sequential answer to k; every queued id is in flight, delivered, dropped or rejected, and only one of these; the queues stay within the bound; completed ids are pending; an unknown id is one that is being recorded |
| TensorProtocol.ApartRunsAreBenign | cogni_os/tensor_service.py:462-589 | when submissions and receives do not overlap, no race occurs |
| TensorProtocol.GivenUpIsNeverDelivered | cogni_os/tensor_service.py:462-589 | in every interleaving, a request that was marked as given up before its answer was kept is never delivered, not even to a second receive of its id |
| TensorRaces.UnknownIdIsReachable | cogni_os/tensor_service.py:500-501 | a concrete run in which receive meets an unknown id although the worker behaved |
| TensorRaces.LostSlotIsReachable | cogni_os/tensor_service.py:484-491 | a concrete run in which a timeout brings back an id that was already dropped, so a slot is lost |
| TensorRaces.AbandonedAnswerIsReachable | cogni_os/tensor_service.py:478-483 | a concrete run in which an answer waits in the completed table for a request that is marked abandoned |
| TensorService.TensorService.constructor | cogni_os/tensor_service.py:361-399 | a new service satisfies the invariant |
| TensorService.TensorService.DrainAvailable | cogni_os/tensor_service.py:573-589 | the response queue is emptied, and each response handled, with a receiving thread and the worker at work between all steps |
| TensorService.TensorService.SubmitCode | cogni_os/tensor_service.py:547-571 | with a receiving thread and the worker at work between all its steps, a submission is accepted with the next id and recorded as wanted, or refused with at least as many ids pending as the bound, which are counted after the response queue was found empty; the refusal for a full queue never happens |
| TensorService.TensorService.WorkerTurn | cogni_os/tensor_service.py:231-350 | the worker takes one request, or sends its answer and always finds room, as protocol steps, while the threads of the parent are anywhere |
| TensorService.TensorService.TakeCompleted | cogni_os/tensor_service.py:473-476 | an answer that was kept is returned, and is the sequential one; its id is freed, with other threads at work between the two table accesses |
| TensorService.TensorService.Receive | cogni_os/tensor_service.py:462-505 | with a submitting thread and the worker at work between all its steps, receive returns the sequential answer of its id, or marks the id and times out, or meets an unknown id; it meets one exactly if an answer is rejected, and then the other thread is about to record that id; it turns an id away only if both looks missed it, and an id whose answer is kept at the call is answered; it gives up only after it found the response queue empty or read as many responses as the deadline leaves |
| TensorService.TensorService.Outstanding | cogni_os/tensor_service.py:464-465 | the check before the loop says whether the id was pending at its first look or completed at its second one |
| TensorService.TensorService.GiveUp | cogni_os/tensor_service.py:480-486 | a request that timed out is marked, if its id is pending, with other threads at work between the check and the mark |
| Disk.FileSystem.CreateExclusive | cogni_flow/production.py:1118-1126 | the exclusive write creates the file in place: a crash or failure may leave any prefix of it |
| Disk.FileSystem.ReplaceMeta | cogni_flow/production.py:1127-1137 | a metadata write shows the old or the new record at every crash point; a failure may leave the temporary behind |
| Disk.FileSystem.ReplaceLive | cogni_flow/production.py:1127-1137 | a live write shows the old or the new bytes at every crash point; a failure may leave the temporary behind |
| Journal.PrepareStep | cogni_flow/production.py:500-507 | writing a prepared record over its complete backup keeps the disk sound and changes nothing that recovery would deliver |
| Journal.ReplaceStep | cogni_flow/production.py:753 | replacing the live file of an open record by its before or after bytes changes nothing that recovery would deliver |
| Journal.CloseStep | cogni_flow/production.py:509-520 | closing a record makes the live bytes of its file final and nothing else |
| Journal.CloseRestored | cogni_flow/production.py:542-547 | closing a record whose file is back at its backup changes nothing |
| Journal.DeleteStep | cogni_flow/production.py:595-601 | deleting closed metadata before its backup keeps the disk sound |
| Journal.OrphanBackup | cogni_flow/production.py:500-505 | a backup without metadata, complete or partial, changes nothing |
| Journal.TemporariesDoNotMatter | cogni_flow/production.py:670-677 | left-over temporaries change nothing that recovery would deliver |
| Journal.NothingToRecover | cogni_flow/production.py:549-572 | without a prepared record the live files are final |
| BackupJournal.BackupJournal.LoadRecord | cogni_flow/production.py:625-660 | a record is trusted only if its metadata, its target and a backup within bounds are there, and on a working disk whenever they are |
| BackupJournal.BackupJournal.Mark | cogni_flow/production.py:509-520 | a prepared record gets its terminal status, at every crash point the old or the new one; a terminal record is never reopened |
| BackupJournal.BackupJournal.Rollback | cogni_flow/production.py:522-547 | exactly the candidate bytes are replaced by the backup and the record is closed; every crash point recovers to the same files |
| BackupJournal.BackupJournal.Commit | cogni_flow/production.py:775 | at every crash point recovery delivers the old files, or the old files with the candidate |
| BackupJournal.BackupJournal.Prepare | cogni_flow/production.py:471-507 | a prepared record has a complete backup with the before-digest; if no promotion of the file is open, every crash point recovers to the old files; at most one record is evicted, only for room, and it is the oldest closed one; on a working disk a new record is taken exactly if the file is there, the bytes are within bounds, and there is room or a closed record to evict |
| BackupJournal.BackupJournal.EnsureCapacity | cogni_flow/production.py:582-593 | room is made by deleting the oldest closed record, never two and none if there is room; prepared ones stay; on a working disk it succeeds exactly if there is room or a closed record |
| BackupJournal.BackupJournal.DeleteRecord | cogni_flow/production.py:595-601 | metadata goes before its backup, so no crash point has metadata without a backup |
| BackupJournal.BackupJournal.Records | cogni_flow/production.py:574-580 | every record once, in the order of creation |
| BackupJournal.BackupJournal.RemoveOrphanTemporaries | cogni_flow/production.py:670-677 | temporaries and backups without metadata go, everything else stays |
| BackupJournal.BackupJournal.RecoverIncomplete | cogni_flow/production.py:549-572 | afterwards nothing is prepared, every record that was open is aborted if its file held the before bytes and rolled back by recovery otherwise, and every file holds what its open records left in it, in their order; on a sound disk that is the delivered bytes: before-bytes for open promotions, everything else unchanged; on a reliable disk it succeeds exactly when every open record finds its before or after bytes; a crash during recovery changes nothing |
| BackupJournal.SoundIsRecoverable | cogni_flow/production.py:556-571 | on a sound disk every open record finds its own bytes in whatever order the records are taken |
| BackupJournal.RecoveredSettles | cogni_flow/production.py:549-572 | when nothing is prepared any more, what recovery must deliver is live |
| Promotion.JournaledHarnessPatcher.Install | cogni_flow/production.py:749-757 | prepare, recheck, replace, recheck: on success the candidate is live under a prepared record; on a working disk it succeeds exactly if the journal takes the record, and leaves no record otherwise |
| Promotion.JournaledHarnessPatcher.RestoreBase | cogni_flow/production.py:801-810 | the bytes come back first and the record is closed after them: as rolled back if the candidate was live, as aborted if it was not; a record that is already closed stays as it is, and on success the base is live; every crash point recovers to the same files as before; on a reliable disk it succeeds |
| Promotion.JournaledHarnessPatcher.Judge | cogni_flow/production.py:758-776 | a passing health check commits the record, a failing one restores the base, on a working disk always so; an exception leaves the record open, or committed under the candidate, or rolled back under the base; every crash point recovers to the base or to the candidate |
| Promotion.JournaledHarnessPatcher.RollbackAfterException | cogni_flow/production.py:794-819 | after an exception the base is live and the record rolled back or aborted in EVOLUTION, or the mode is SAFE_MODE; the modes go through ROLLING_BACK |
| Promotion.JournaledHarnessPatcher.ValidateAndPromote | cogni_flow/production.py:714-779 | every exit is accounted for: promoted means candidate live and record committed; declined means base live in EVOLUTION, with a rolled back record if the candidate had been installed; an exception means base live or SAFE_MODE, with a record of the promotion that is open, rolled back or aborted, and committed only with the candidate live in SAFE_MODE on a disk whose steps may fail; the modes are those of the path; if no promotion of the file is open, every crash point recovers to the old files or the old files with the candidate; on a working disk, with a new record id, it promotes exactly if policy, base digest, journal and both gates pass, declines exactly if a gate fails, and raises otherwise, and a candidate that reached the health gate has a committed record if it passed and a rolled back one if it failed or the gate broke |
| Promotion.RecordTellsLive | cogni_flow/production.py:758-810 | the record tells the files: a committed one has its after bytes live and passed the health gate, a rolled back or aborted one has the base bytes live, and an open one needs an exception on a disk whose steps may fail |
| Promotion.StrandedIsRefused | cogni_flow/production.py:562-571 | if the oldest open record on a file does not find its before or after bytes there, every recovery fails |
| Promotion.KeepsIff | cogni_flow/production.py:556-571 | recovery keeps a file as it is exactly when no record is open on it, or every open record finds its bytes and the last of them restores the same bytes |
| Promotion.CommittedIsKeptIff | cogni_flow/production.py:749-776 | after a promotion has committed, every recovery keeps its candidate exactly when no other promotion of the file was open before, records whose before bytes are the candidate aside |
| Promotion.OneOpenDecides | cogni_flow/production.py:556-571 | with one open record on a file, recovery puts its backup back if the file holds its before or after bytes, and else fails |
| Promotion.LostRecordBlocksRecovery | cogni_flow/production.py:749-779 | a prepare that fails after its metadata is in place leaves an open record in EVOLUTION; when a promotion of the same file is then committed, recovery succeeds exactly if the committed bytes are the before or the after bytes of the lost record |
| Promotion.LostRecordUndoesCommitment | cogni_flow/production.py:562-568 | when the same candidate is proposed again and committed, recovery succeeds on a sound disk and puts the base back over the committed candidate |
| NightCycle.SelfHarness.TryCandidate | cogni_flow/cycle.py:54-73 | one candidate: only checked in proposal-only mode, else promoted, declined or broken, with the file changed at most to its replacement; if no promotion of its file was open, a crash point recovers to the old files or to them with the candidate; on a working disk the outcome is the one that is due |
| NightCycle.SelfHarness.TryCluster | cogni_flow/cycle.py:53-73 | the loop over one cluster stops at the first accepted candidate or exception, and counts the candidates tried; if no promotion was open on a file of its candidates, a crash point recovers to the old files or to them with one candidate; on a working disk it ends as is due for the disk on which it began |
| NightCycle.SelfHarness.TryAll | cogni_flow/cycle.py:52-75 | the same over all clusters |
| NightCycle.TriedThen | cogni_flow/cycle.py:52-75 | candidates that came to nothing and then one more are together as safe as the last one, as nothing new was opened |
| NightCycle.TracksNext | cogni_flow/cycle.py:53-73 | a candidate that came to nothing on a working disk changes nothing about what is due for the rest of its cluster |
| NightCycle.TracksAllNext | cogni_flow/cycle.py:52-75 | and neither does a cluster for the rest of the night |
| NightCycle.CandidateDueIff | cogni_flow/cycle.py:54-73 | a candidate is due to be accepted exactly if policy, base digest, both gates, journal and audit take it, and due to be passed over exactly if it is only checked or a gate turns it down; an exception is ordinary as that of the audit or of the patcher is |
| NightCycle.NightStopsFirst | cogni_flow/cycle.py:52-75 | a night on a working disk stops at the first candidate that is not turned down or proposer that does not return; it promotes exactly if this candidate proves itself |
| NightCycle.FairNightStopsFirst | cogni_flow/cycle.py:52-75 | so does every night that `RunNightCycle` reports for a working disk with room and new record ids, after the number of candidates that it reports |
| NightCycle.SelfHarness.Handle | cogni_flow/cycle.py:95-104 | the handler leads every night mode back to INFERENCE, over ROLLING_BACK from VALIDATING and PROMOTING, with exactly these history entries, unless its own audit write raises |
| NightCycle.SelfHarness.RunNightCycle | cogni_flow/cycle.py:41-104 | the night is entered exactly from INFERENCE without requests and with a returned checkpoint, and leaves before its loops exactly if the log read fails then; a night that is not entered, or whose log is not read, leaves the modes of that path and nothing else; at most one live file changes, to a proposed content, and none in proposal-only mode; a normal return is in INFERENCE with no task, its count of proposals is the number of candidates tried, and the one it promoted is the last of these; an exception inside the try whose audit succeeds ends in INFERENCE or SAFE_MODE, and otherwise in the mode that its candidate left; no record is left open but by an exception on a disk whose steps may fail; if no promotion was open on a file of the candidates, every crash point recovers to the old files or one candidate; on a working disk with room and new record ids, the outcome and the count are those that are due |
| Startup.ProductionSelfHarness.Recover | cogni_flow/production.py:878-893 | recovery at start ends in INFERENCE with everything recovered, or in SAFE_MODE; on a working disk in INFERENCE exactly if every open record finds its own bytes |
| Startup.ProductionSelfHarness.AnyPrepared | cogni_flow/production.py:873-875 | whether a promotion is open is found out exactly, without a change to the disk |
| Startup.ProductionSelfHarness.Start | cogni_flow/production.py:869-896 | a start goes one of five ways, on a working disk the only one that is open: nothing prepared and nothing done; no way into the night, with the modes of that path; recovered and back in INFERENCE, running exactly if the audit was written; not recoverable and in SAFE_MODE; a successful start has nothing prepared and, from a sound disk, exactly the settled files live |
| Startup.RunNight | cogni_flow/cycle.py:41-104 | one night as a stage: the night as `RunNightCycle` runs it from the mode and counters that it found, and the disk that is left when the power fails after the given number of disk steps |
| Startup.RunSession | cogni_flow/production.py:869-896 | a session runs its start and, unless it is refused or the power fails at the given disk step, every night, also after nights that ended in an exception; it returns one stage for each, leading from the disk it found to the disk it left and from the mode it found to the mode it left |
| Startup.Lifetime | cogni_flow/production.py:549-572 | the stages of all sessions form one chain from the first disk to the last; if no night met an open promotion on a file of its candidates, every disk is sound and what recovery delivers changes by at most one candidate of the stage that was running; and no night does while no night ended in an exception on a disk whose steps may fail |
| Startup.EveryLifetimeEvolves | cogni_flow/production.py:549-572 | the law over every chain of starts and nights in which no night meets an open promotion on a file of its candidates: every disk is sound, and recovery delivers the old files or these with one candidate of that night |
| Startup.SmoothIsClear | cogni_flow/cycle.py:95-104 | a night can meet an open promotion only after a night of the same session that ended in an exception on a disk whose steps may fail |
| AncestorRing.AncestorsAreReached | cogni_core/search.py:529-539 | the chain of a handle is what following parents reaches |
| AncestorRing.CandidatesArePrefix | cogni_core/search.py:524-539 | the resident ancestors are a prefix of the chain, so stopping at the first recycled one loses none |
| AncestorRing.CandidatesFit | cogni_core/search.py:529-539 | candidates are distinct and fewer than the capacity, so the loop bound cuts nothing off |
| AncestorRing.SemanticAncestorRetriever.SlotForHandle | cogni_core/search.py:440-444 | a handle has a slot exactly while it is resident |
| AncestorRing.SemanticAncestorRetriever.Add | cogni_core/search.py:447-488 | the ring keeps agreeing with the unbounded log; an unknown parent is rejected; the handle is the length of the log |
| AncestorRing.SemanticAncestorRetriever.Walk | cogni_core/search.py:524-539 | the candidates are exactly the resident proper ancestors, nearest first, each in a slot that still holds it and its state row |
| AncestorRing.SemanticAncestorRetriever.Reset | cogni_core/search.py:627-641 | everything is forgotten |
| SearchTree.BalancedMeans | cogni_core/search.py:982-992 | the laws node by node: edge visits are child visits, an expanded node has one visit more than its edges, an edge sum is the leaf values evaluated below it plus the discounted outgoing sums |
| SearchTree.ExpandBalances | cogni_core/search.py:715-725 | a full-width expansion unbalances nothing |
| SearchTree.TouchOwes | cogni_core/search.py:984-986 | after the visits of a path are counted the leaf owes its value and every edge of the path one visit |
| SearchTree.CreditFlow | cogni_core/search.py:987-991 | crediting one edge moves the visit debt one node up |
| SearchTree.CreditWorth | cogni_core/search.py:987-992 | crediting one edge moves the value debt one node up, discounted |
| SearchTree.LeafOwes | cogni_core/search.py:935-986 | selection, expansion and visit count together leave exactly the debt that the backup loop pays |
| SearchTree.OwingStep | cogni_core/search.py:987-992 | one turn of the backup loop |
| SearchTree.WalkFits | cogni_core/search.py:912-916 | a path from the root never outgrows the node capacity |
| SearchTree.WalkOn | cogni_core/search.py:912-916 | at an expanded node neither the invalid-child nor the path-length error can be raised |
| SearchTree.MeansBounded | cogni_core/search.py:984-992 | if every leaf value lies in a symmetric interval, so does the mean of every edge |
| SearchTree.EveryMeanWithin | cogni_core/search.py:984-1002 | the mean of every edge of the tree lies in any symmetric interval that holds all evaluated leaf values |
| SearchTree.MeanWithin | cogni_core/search.py:998-1002 | the reported mean of an edge lies in the interval of the leaf values |
| SearchTree.RootIsExpanded | cogni_core/search.py:936-963 | after the first simulation the root is an inner node with one visit more than its edges |
| SearchTree.ExhaustedNext | cogni_core/search.py:936-981 | the tree holds a starved node after a simulation exactly if it did before or this simulation starved its leaf: a starved node is never expanded later |
| SearchTree.LeavesRoot | cogni_core/search.py:892-926 | every simulation but the first ends below the root |
| SearchTree.AncestorsArePath | cogni_core/search.py:964-972 | the ancestors that the ring knows of a node are the path that led to it, backwards |
| TreeSearch.TreeBuffers.AddChildren | cogni_core/search.py:715-725 | the arrays change exactly as a full-width expansion, or not at all when there is no room |
| TreeSearch.TreeBuffers.Select | cogni_core/search.py:892-920 | the selection walk follows the tree, ends at a node that is not an inner node above the depth limit, and meets neither of its two errors |
| TreeSearch.TreeBuffers.CountVisits | cogni_core/search.py:984-985 | exactly the nodes of the path gain one visit |
| TreeSearch.TreeBuffers.CreditEdges | cogni_core/search.py:986-992 | the backup loop pays the debt up to the root |
| TreeSearch.BoundedPUCTSearch.Consult | cogni_core/search.py:924-926 | the query for ancestors sees exactly the still resident nodes of the path, nearest first |
| TreeSearch.BoundedPUCTSearch.Grow | cogni_core/search.py:961-972 | an expansion keeps ring handles equal to node indices, so the divergence error is not met |
| TreeSearch.BoundedPUCTSearch.BackUp | cogni_core/search.py:984-992 | after a backup all laws hold again and the root has one visit more |
| TreeSearch.BoundedPUCTSearch.Simulate | cogni_core/search.py:891-994 | one simulation keeps all laws, evaluates one value at one node, and grows the tree by nothing or by the width; it asks for ancestors unless it is the first; it is interrupted exactly if a callback raised; it leaves a node starved exactly if depth allowed an expansion and the capacity did not |
| TreeSearch.BoundedPUCTSearch.RootMeans | cogni_core/search.py:996-1002 | the reported root values are the edge means, zero where nothing was visited |
| TreeSearch.BoundedPUCTSearch.Run | cogni_core/search.py:885-994 | the telemetry counts what was done: expansions and rollouts add up to the simulations, the node count is one plus width times expansions, the exhaustion flag is set exactly if some node was evaluated above the depth limit and could not be expanded, and every simulation but the first asked for ancestors if there is a ring; the loop is interrupted exactly if a callback raised |
| TreeSearch.BoundedPUCTSearch.MostVisitedPath | cogni_core/search.py:1010-1028 | the best path takes the first most-visited edge at each node and ends where nothing below was evaluated |
| TreeSearch.BoundedPUCTSearch.Search | cogni_core/search.py:842-1056 | none of the four internal errors is raised; the search raises exactly if one of its callbacks does; the final tree satisfies all laws; root visits sum to simulations minus one; the report is about that tree; the reported root values lie in any symmetric interval that holds all evaluated leaf values; the exhaustion flag is set exactly if some node of the final tree was evaluated above the depth limit and is not expanded; the deepest node is reported, and it is within the depth limit; the callbacks were called once for each simulation and expansion |
| WorkflowGraph.OrderedIsAcyclic | cogni_flow/aflow.py:190-202 | a topological order of all nodes leaves no cycle, self-loops and parallel edges included |
| WorkflowGraph.FedIsCyclic | cogni_flow/aflow.py:201-202 | nodes that all have a predecessor among themselves contain a cycle |
| WorkflowGraph.Settle | cogni_flow/aflow.py:197-200 | one decrement keeps in-degrees equal to waiting edges and the queue topological |
| WorkflowGraph.Exhausted | cogni_flow/aflow.py:190-202 | an exhausted queue holds all nodes exactly when the graph has no cycle |
| WorkflowGraph.Consume | cogni_flow/aflow.py:190-201 | the queue loop consumes every node exactly when the graph is acyclic, and then gives a topological order |
| WorkflowValidator.CheckArguments | cogni_flow/aflow.py:146-161 | arguments pass exactly when names and values are legal text and the names are distinct |
| WorkflowValidator.CheckNodes | cogni_flow/aflow.py:124-161 | nodes pass exactly when ids are legal and distinct, every node has legal actions and the actions fit the budget |
| WorkflowValidator.CheckEdges | cogni_flow/aflow.py:163-179 | edges pass exactly when their text is legal, their ends are known and no edge is repeated; the tables then say what the edges say |
| WorkflowValidator.CheckGraph | cogni_flow/aflow.py:184-202 | accepted exactly when acyclic; roots and leaves are sorted and complete |
| WorkflowValidator.Validate | cogni_flow/aflow.py:112-210 | a workflow is accepted exactly when schema, budgets and acyclicity hold; the cycle error is reported exactly when everything else is fine |
| Archive.AddedSummed | cogni_flow/aflow.py:454-465 | a new record and its backpropagated score keep every record's sums equal to the size and score sum of its subtree |
| Archive.RootCarriesAll | cogni_flow/aflow.py:530-538 | the root's sums cover the whole archive |
| Archive.LastPromotionIsBest | cogni_flow/aflow.py:466-472 | the last left-to-right strict maximum is the first best record |
| Archive.PromotedStep | cogni_flow/aflow.py:466-468 | promoting on a strictly better score keeps the promotions equal to the left-to-right strict maxima |
| Archive.PlaceIsRivals | cogni_flow/aflow.py:504-514 | the place of a record in the ranking is the number of better records |
| ArchiveSearch.Records.Backpropagate | cogni_flow/aflow.py:530-538 | the walk to the root ends and changes exactly the records above, by one visit and the score |
| ArchiveSearch.Records.Append | cogni_flow/aflow.py:454-465 | a record enters with one visit and its score, and the records above it are updated |
| ArchiveSearch.SelectParent | cogni_flow/aflow.py:503-527 | for any draw the parent is the root or has fewer than top-k better records |
| ArchiveSearch.AddedIsSound | cogni_flow/aflow.py:454-468 | a new acceptable workflow keeps subtree sums, promotions, validity, distinctness and order |
| ArchiveSearch.AFlowOptimizer.Consider | cogni_flow/aflow.py:404-452 | the evaluator is asked exactly about proposals that are acceptable and new; a candidate is passed on exactly if it was scored, and each of the four reasons for a rejection is given exactly in its case |
| ArchiveSearch.AFlowOptimizer.Admit | cogni_flow/aflow.py:454-468 | the candidate enters under the selected parent with its score and iteration, the archive stays sound, and the record is promoted exactly if it beats the best |
| ArchiveSearch.AFlowOptimizer.Iterate | cogni_flow/aflow.py:389-468 | one iteration adds one record under a selected parent, or one rejection and nothing else |
| ArchiveSearch.AFlowOptimizer.Explore | cogni_flow/aflow.py:385-468 | every iteration is in the archive or among the rejections, once and in order; evaluations are records plus failed evaluations; both stop reasons mean what they say |
| ArchiveSearch.AFlowOptimizer.Search | cogni_flow/aflow.py:370-480 | an unacceptable initial workflow is refused, and one that cannot be scored ends the search; otherwise the result's archive is sound, its best is the first best record, and every iteration used is in the archive or among the rejections, once |
| SeedMixer.XorBits | cogni_flow/aflow.py:559-561 | the exclusive or has exactly the bits in which its operands differ |
| SeedMixer.ShrDivides | cogni_flow/aflow.py:559-561 | a shift to the right is division by a power of two, rounded down |
| SeedMixer.XorShiftIsInjective | cogni_flow/aflow.py:559-561 | a xor-shift loses nothing |
| SeedMixer.TimesIsInjective | cogni_flow/aflow.py:559-560 | multiplication by either odd constant modulo 2^64 loses nothing |
| SeedMixer.MixIsInjective | cogni_flow/aflow.py:559-561 | the whole mixing of a word loses nothing |
| SeedMixer.SeedFits | cogni_flow/aflow.py:555-561 | every proposal seed is a 64-bit word |
| SeedMixer.SeedsDiffer | cogni_flow/aflow.py:555-561 | for any seed, two different iterations below 2^64 get different proposal seeds |
| PromptFraming.PassRemoves | cogni_agent/prompting.py:90-92 | one replacement removes every occurrence of a token that cannot overlap itself in a part without brackets |
| PromptFraming.PassChanges | cogni_agent/prompting.py:90-92 | a replacement changes every text in which its token occurs, unless the token has no bracket |
| PromptFraming.RemovedIffNoBareBorder | cogni_agent/prompting.py:90-92 | one pass removes a token spelled without wide brackets from every text exactly when it has no bracket-free border |
| PromptFraming.IdempotentIffNoBareBorder | cogni_agent/prompting.py:87-92 | escaping twice is escaping once in every text, for a token with a bracket and spelled without wide ones, exactly when it has no bracket-free border |
| PromptFraming.BareBorderSurvives | cogni_agent/prompting.py:87-92 | for a token with a bracket-free border there is a text in which one pass leaves the token standing |
| PromptFraming.KnownAreGone | cogni_agent/prompting.py:81-93 | the fixed control tokens are gone, whatever further tokens the tokenizer has and whatever their order |
| PromptFraming.PassesAreIdempotent | cogni_agent/prompting.py:81-93 | escaping again, in any order, changes nothing if every token is removable |
| PromptFraming.EscapedTwiceIff | cogni_agent/prompting.py:81-93 | for any tokens, text and order, escaping again changes nothing exactly when no token with a bracket occurs in what escaping left |
| PromptFraming.PassesKeepIff | cogni_agent/prompting.py:81-93 | escaping leaves a text alone exactly when every token has no bracket or does not occur in it |
| PromptFraming.WideTokensAreNotIdempotent | cogni_agent/prompting.py:87-92 | a tokenizer with wide brackets in its tokens for which escaping twice differs from escaping once |
| PromptFraming.BorderedTokenIsNotIdempotent | cogni_agent/prompting.py:87-92 | a token with a bracket-free border, and a text in which it survives one escape and not a second one |
| PromptFraming.Neutralize | cogni_agent/prompting.py:81-93 | refused exactly for empty text or control characters; else the text with all tokens replaced, longer ones first, hence of the same length, with only brackets widened and no fixed control token left |
| PromptFraming.PlainTextStays | cogni_agent/prompting.py:81-93 | a text in which no token occurs comes through unchanged, its single brackets included |
| PromptFraming.PassesChangeOnly | cogni_agent/prompting.py:87-93 | with tokens that have no wide brackets, escaping changes only brackets inside an occurrence of a token |
| PromptFraming.NoControlTokens | cogni_agent/prompting.py:21-37 | none of the eight fixed control tokens, spelled out, is left in a neutralized text |
| PromptFraming.BosIsWidened | cogni_agent/prompting.py:89-92 | the brackets of a token are replaced by the two wide ones, shown for the beginning-of-text token |
| PromptTranscript.FindsEnd | cogni_agent/prompting.py:122 | the end token is found where the frame put it, also across the boundary of the text |
| PromptTranscript.RoundTrip | cogni_agent/prompting.py:107-132 | reading a rendered prompt gives back every role, every content and the open answer |
| PromptTranscript.Unambiguous | cogni_agent/prompting.py:107-132 | two transcripts with the same prompt are the same transcript |
| PromptTranscript.SamplePrompt | cogni_agent/prompting.py:107-127 | the prompt of one question, written out token by token |
| PromptTranscript.RenderTurns | cogni_agent/prompting.py:107-125 | the closed turns are rendered exactly for legal, alternating messages that end with the user, and their contents are exactly the neutralized texts |
| PromptTranscript.Render | cogni_agent/prompting.py:96-132 | rendered exactly when tokenizer, texts, roles and order are in order; the prompt is the framed transcript, and reads back as it: the neutralized system text, the neutralized contents under the roles user and model, and the open answer |
| FailureDaemon.StepKeepsInvIffBenign | cogni_flow/daemon.py:84-152 | an interleaved step keeps the order of every epoch, the counters and the single writer exactly when it is not a stop finishing under a living writer of a later start |
| FailureDaemon.RunKeepsInv | cogni_flow/daemon.py:84-264 | every run of such steps keeps the invariant |
| FailureDaemon.NothingIsLost | cogni_flow/daemon.py:103-152 | for a stop that has joined its writer, everything that the epoch of this writer accepted is saved in submission order exactly when no write of the epoch failed; if no start came after the beginning of the stop, the stop returns without an error exactly in this case |
| FailureDaemon.StartHidesTheLoss | cogni_flow/daemon.py:84-131 | whenever a stop under way has a loss to report, a start in between makes it return without an error |
| FailureDaemon.UnjoinedStopIff | cogni_flow/daemon.py:107-111 | after any benign run, when a stop would find no thread and return without an error: the queue is empty, and the latest epoch is saved completely exactly when no writer error is noted |
| FailureDaemon.CountersAreSafe | cogni_flow/daemon.py:84-256 | in every run, overlapping lifecycle calls included: what was submitted is what was recorded, failed, is in the hands of writers, queued, or was discarded by a start that replaced the queue; and recorded never exceeds submitted |
| FailureDaemon.StepKeepsBalance | cogni_flow/daemon.py:84-264 | every step of every interleaving keeps that balance |
| FailureDaemon.RejectedCountsRefusals | cogni_flow/daemon.py:133-151 | in every run the third counter is the number of refused submissions |
| FailureDaemon.BenignDiscardsNothing | cogni_flow/daemon.py:84-131 | in a benign run nothing is discarded, and at most one writer has a failure in its hands |
| FailureDaemon.ApartRunsAreBenign | cogni_flow/daemon.py:84-131 | when lifecycle calls do not overlap, every step is benign and no start comes after the beginning of a stop under way |
| FailureDaemon.OverlapLosesTheWriter | cogni_flow/daemon.py:113-131 | a concrete run in which overlapping stop and start forget a living writer, and the next stop returns with an accepted failure still queued |
| FailureDaemon.OverlapHidesTheLoss | cogni_flow/daemon.py:84-131 | a concrete run in which a stop returns without an error although the only failure of its epoch was never saved |
| FailureDaemon.SecondStopIsSilent | cogni_flow/daemon.py:107-131 | a concrete run without any overlap in which the first stop reports a loss and a second stop, for the same epoch, returns without an error |
| FailureDaemon.FailureCaptureDaemon.Start | cogni_flow/daemon.py:84-101 | starting is one step of the machine and fails exactly while an old writer still runs; a new epoch begins with an empty queue and no writer error |
| FailureDaemon.FailureCaptureDaemon.BeginStop | cogni_flow/daemon.py:103-113 | the first region of stop closes admission and names the thread to join; when there is none, the latest epoch is saved completely exactly when no writer error is noted |
| FailureDaemon.FailureCaptureDaemon.FinishStop | cogni_flow/daemon.py:124-131 | the second region forgets the thread and returns without an error exactly if no writer error is noted; the epoch of the joined writer is saved completely exactly when nothing was lost, and if no start came in between this is what the stop reports |
| FailureDaemon.FailureCaptureDaemon.Submit | cogni_flow/daemon.py:133-152 | a failure is queued last and counted in one locked region, or refused with its reason and counted as rejected |
| FailureDaemon.FailureCaptureDaemon.WriterTurn | cogni_flow/daemon.py:242-264 | one turn of the writer, in any state, takes the oldest failure and saves and counts it or reports a writer error; it ends only when stopped and drained; the balance of the counters is kept |
| LineReader.OneSplitting | cogni_demo/server.py:465-488 | a stream can be split into lines, each with its newline, in one way only |
| LineReader.OneReading | cogni_demo/server.py:465-488 | two readings of the same stream give the same lines, however either was chunked |
| LineReader.Feed | cogni_demo/server.py:475-486 | one byte keeps buffer, flag and output in step with the stream, with the buffer never above the bound plus one |
| LineReader.BoundedLines | cogni_demo/server.py:465-488 | for every chunking the lines are those of the delivered stream: up to the bound intact with newline, longer ones cut to the bound and flagged |
| JobEvents.JobManager.Finish | cogni_demo/server.py:854-871 | only the owner of the active job finishes it, with its status, stage, progress and error |
| JobEvents.JobManager.Examine | cogni_demo/server.py:758-784 | the checks on one event keep the failure flag equal to a departure from the required order |
| JobEvents.JobManager.Collect | cogni_demo/server.py:737-784 | after the loop the flag is clear exactly if every message was in order |
| JobEvents.CompleteIff | cogni_demo/server.py:802-806 | no failure and one result is exactly: five phases in order, then one valid result |
| JobEvents.CompleteWrittenOut | cogni_demo/server.py:765-784 | a complete run, written out: the five phases by name in their order and one valid result, numbered one to six, with progress that never falls |
| JobEvents.JobManager.RunJob | cogni_demo/server.py:682-850 | success exactly when nothing was cancelled, the exit code is zero and the events were complete; otherwise the metrics stay, and the exit code, the protocol and the server are told apart exactly |
| Conversation.LongestKeepsExchange | cogni_agent/conversation.py:179-189 | trimming never removes the pending user turn nor a just completed exchange |
| Conversation.BoundedConversationStore.Trim | cogni_agent/conversation.py:179-189 | what stays is the longest end of the turns that fits and starts with the user |
| Conversation.BoundedConversationStore.AppendAndTrim | cogni_agent/conversation.py:171-189 | a turn enters with the next number and the store keeps the longest end that fits |
| Conversation.BoundedConversationStore.GetOrCreate | cogni_agent/conversation.py:154-163 | an existing session becomes most recent; a new one may push out the least recent |
| Conversation.BoundedConversationStore.BeginUserTurn | cogni_agent/conversation.py:87-96 | a turn opens with the next number exactly when none is pending, and stays pending after trimming |
| Conversation.BoundedConversationStore.CommitAssistantTurn | cogni_agent/conversation.py:98-121 | a reply is accepted exactly from the owner of the pending turn, and the exchange survives trimming |
| Conversation.BoundedConversationStore.AbortUserTurn | cogni_agent/conversation.py:123-135 | exactly the pending turn of its owner is removed |
| Conversation.BoundedConversationStore.Clear | cogni_agent/conversation.py:149-152 | the session is gone, the others keep their order |
| Conversation.AbortUndoesBegin | cogni_agent/conversation.py:123-135 | aborting a begun turn restores the turns exactly when nothing had to be trimmed for it |
| EwcMerge.SlopeVanishes | cogni_core/adaptation.py:513-517 | the merged entry pulls like the two exactly when their Fisher sum reaches the guard or their weighted anchors cancel |
| EwcMerge.HarmShows | cogni_core/adaptation.py:513-517 | a harmed entry is visible: two parameter vectors for which the merge changes the penalty by different amounts |
| EwcMerge.MergeIsConstant | cogni_core/adaptation.py:503-521 | a merge that harms no shared entry changes the penalty by a constant |
| EwcMerge.MergeIsExactIff | cogni_core/adaptation.py:503-521 | a merge changes the penalty by a constant exactly when it harms no shared entry |
| EwcMerge.FoldIsConstant | cogni_core/adaptation.py:503-521 | merging any number of oldest snapshots changes the penalty by a constant |
| EwcMerge.RunIsConstant | cogni_core/adaptation.py:493-529 | over a whole run the bounded and the unbounded penalty differ by a constant |
| EwcMoments.RunIsConstantIff | cogni_core/adaptation.py:493-529 | over a whole run, bounded and unbounded penalty differ by a constant exactly when the folded snapshot keeps, entry by entry, the sum of Fisher entry times anchor |
| EwcMoments.LostMomentShows | cogni_core/adaptation.py:513-517 | a sum that was not kept shows: moving its one parameter changes the difference of the penalties |
| EwcMoments.EnergyRises | cogni_core/fp_ewc.py:112-141 | what any snapshots cost beyond parameters of zero depends only on the sums of their Fisher entries and of Fisher entry times anchor |
| EwcMerge.GranularRunIsHarmless | cogni_core/adaptation.py:513-515 | if every Fisher entry is zero or at least the guard, no merge of any run does harm |
| EwcLifecycle.FPEWCRegularizer.ComputePenalty | cogni_core/fp_ewc.py:112-141 | the loops compute the penalty, in whatever order the names come |
| EwcLifecycle.FixedPointDomainLifecycle.Consolidate | cogni_core/adaptation.py:423-463 | a domain is taken exactly when its data are legal; snapshots and records stay parallel and within the budget |
| EwcLifecycle.FixedPointDomainLifecycle.EnforceDomainBudget | cogni_core/adaptation.py:493-529 | the loop merges the oldest until the budget holds, and no more |
| EwcLifecycle.FixedPointDomainLifecycle.SamplesAreKept | cogni_core/adaptation.py:522-529 | no sample is lost by joining records |
| EwcLifecycle.FixedPointDomainLifecycle.PenaltyIsKept | cogni_core/adaptation.py:490-521 | while no merge did harm, bounded and unbounded penalty of the whole history differ by a constant |
| EwcLifecycle.FixedPointDomainLifecycle.PenaltyIsKeptIff | cogni_core/adaptation.py:490-521 | at any time, they differ by a constant exactly when the merged snapshot keeps the sums of Fisher entry times anchor |

## Left out

- The neural parts (model loading, fixed-point solvers, swarm, experts and router, spectral norms, autograd): numerics of kernels that the repository does not contain.
- HTTP handlers, session files, access lists, browser and launcher, user interface, command line and validation scripts: input and output only.
- SQLite, JSON, TOML, regular expressions and `ast`: the log is a call that may fail, a journal record is a value that is read back as it was written.
- Patch policy, runner attestation, path and symlink checks: one flag of a trial says whether they passed. A record's `file_mode` is not kept.
- Action scores, Gumbel noise and the cosine ranking of ancestors: the selected action is any index, and only which ancestors become candidates is modelled.
- Probabilities of the parent selection: the draw is arbitrary, so no frequency is claimed.
- Wall-clock time: a timeout is a step that may happen whenever a receiver waits. Killing and joining processes, the READY handshake, malformed messages, status translation and restart of the tensor service are not modelled.
- Liveness and deadlock of the tensor service, the daemon and the rhythm: statements are about safety.
- Floating point: numbers are reals. Square roots of Fisher entries, which the lifecycle takes and the regularizer squares again, enter as given scores whose squares are the entries.
- SHA-256 is an injective function of the bytes.
- Other threads during a night: the patcher's mode changes run without interference; `Rhythm` treats interference for the mode machine itself. Writers of live files from outside the program are not modelled, except that recovery and promotion check digests as the program does.
- Names of temporary files: a file has a temporary beside it or not. Those beside live files, which recovery never removes, change nothing that is read.
- Aliasing of `_MutableRecord` and `_Conversation` objects: they have one owner, so they are values in a list or map field. Rows of the search tensors are sequences in arrays. Snapshots of conversations and session-id syntax are not modelled.
- The stop check of the writer loop and the queue read that follows it are one step of the failure daemon.
- Cancellation of a job before its launch is not told apart from cancellation later, and failure texts are reduced to their kind.
- Checks of Python types, which Dafny's types settle, and the range checks of configurations.
- `add` of the ancestor ring without a shared state bank: the stored latent is not modelled, only the row it refers to.
- Startup.Lifetime: on a disk whose steps may fail, which of them fail is chosen inside the method, so its contract says what every stage guarantees, and not which of the allowed outcomes a stage had.
- The number of restored files that a start writes to its audit.
- Record ids are drawn from time and entropy in the program; here they are given, and the statements about working disks are for ids that are new.
