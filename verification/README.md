# A verified model of the log agent's durable core

This project models the parts of the softnix log agent that must not lose or
repeat events, and proves what they promise: the segmented disk queue of a
destination and the worker that drains it, the file tailer, the byte budget of
the input channel, the dirty-flag persistence of the agent state, the RFC 5424
and RFC 6587 printers with the hand-written structured-data parser, and the
compiled form of event conditions.

    dafny verify dfyconfig.toml

## How it is put together

**The disk queue** comes in three layers.

- `Records` is the byte format: `[len][crc][payload]`, reading one record,
  scanning a segment, torn tails. The checksum is a function parameter, and an
  event is its encoding.
- `QueueLog`, `QueuePush`, `QueuePeek`, `QueueRuns`, `QueueAccounts` and
  `QueueRoom` describe the queue as a value: the history of everything stored,
  where segments start in it, how many bytes of the write segment have reached
  its file, the acknowledged, peeked and persisted positions, and ghost sets
  naming every record that was acknowledged or evicted. Each operation is a
  function on that value, and the theorems about whole runs are proved there. A
  run interleaves pushes, flushes of any length, rolls, evictions, peeks, both
  halves of `ack`, resets, failed writes that let any proper prefix of the
  buffered bytes through, and crashes that keep the flushed bytes and lose the
  rest.
- `QueueBytes` and `DiskQueues` are the implementation: the class `DiskQueue`
  has the fields of the program (segment set, write offset, buffered writer,
  cursor, peek, counters) over a `Disk` of byte files. `Valid()` says that fields
  and files represent the ghost value `log`, and every method is proved to move
  `log` by exactly the corresponding function. So each theorem about the value is
  a theorem about the bytes.

`OutputWorkers` runs the class `OutputWorker` on top of a `DiskQueue`, against an
arbitrary script of sink answers, router pushes, I/O outcomes and cancellation.
`WorkerRuns` has the same as a function on the queue value, and what a run delivers.
`Deliveries` holds what the worker keeps, and joins worker and queue over any
number of processes: at-least-once delivery.

**The other modules.** `TextLines`, `FileTailer` and `TailDelivery` (cutting
bytes into lines; rotation, truncation, fingerprints, the class `Tailer`; sending
before saving, across rotations and restarts), `ChannelBudget` and `StateStore`
(interleaved steps of several threads, with all runs considered), `Events`,
`Rfc5424`, `Rfc5424RoundTrip`, `Framing` and `Conditions`.

How the file system, the sink and the schedule behave is always a parameter. A
theorem holds for every behaviour of them but those its row excludes. Where a
promise of the program fails, one row gives the exact condition and one an input.

## Model

| member | source | states |
|---|---|---|
| Records.PayloadRoundTripIff | src/buffer.rs:200-203 | a pushed payload is read back if and only if it is non-empty and its length fits the 32-bit header |
| Records.ReadEncoded | src/buffer.rs:702-730 | a record anywhere in a file reads as itself, or as a corrupt one to be stepped over by exactly its framed length |
| Records.ReadTorn | src/buffer.rs:716-722 | a file that ends inside a record reads as ended there |
| Records.ReadSound | src/buffer.rs:702-730 | whatever the reader steps over, in any file, is byte for byte the encoding of one record, good exactly if its checksum matches |
| Records.ScanSegment | src/buffer.rs:653-677 | the scanning loop computes the scan of the file from any start |
| Records.ScanPrefix | src/buffer.rs:653-677 | torn-tail recovery: on every byte prefix of a run of records, from every record boundary, the scan ends after the last whole record and counts exactly the good ones from there |
| Records.ScanPrefixThen | src/buffer.rs:229-240 | the same when the file ends inside one record more, as after a torn write |
| Records.ScanSound | src/buffer.rs:653-677 | on any file at all, what the scan accepts is a run of records, counted right, ending where nothing more can be read |
| Records.ScanTruncated | src/buffer.rs:117-123 | cutting the file at the scanned end, as opening does, changes nothing of what is read |
| DiskQueues.DiskQueue.Open | src/buffer.rs:97-177 | opening a new directory, or what a process of this queue left behind by dying, gives a sound queue whose records are those whole on disk and whose reader stands at the clamped persisted cursor |
| DiskQueues.DiskQueue.RepairTail | src/buffer.rs:117-123 | the last segment is cut to its whole records |
| DiskQueues.DiskQueue.LoadCursor | src/buffer.rs:126-138 | a cursor on a deleted segment moves to the start of the oldest one left, and one beyond the last segment to the start of that |
| DiskQueues.DiskQueue.CountUnread | src/buffer.rs:141-152 | the loop over the segments counts exactly the good records from the cursor on, and all bytes |
| DiskQueues.DiskQueue.Push | src/buffer.rs:179-252 | a push on bytes does exactly what the value-level push does; `dropped` grows by the evicted events plus the rejected ones |
| DiskQueues.DiskQueue.EvictUntilFits | src/buffer.rs:184-198 | the drop_oldest loop ends by (bytes, number of segments) and discards what the specification says |
| DiskQueues.DiskQueue.WriteRecord | src/buffer.rs:200-248 | append through the writer, repair after a failed write, roll when the segment is long enough |
| DiskQueues.DiskQueue.ReconcileWriteSegment | src/buffer.rs:579-610 | after a discarded buffer, with any prefix of it in the file, length, bytes, count and segment count are again what the disk holds |
| DiskQueues.DiskQueue.RollSegment | src/buffer.rs:535-563 | the writer is flushed before anything changes; a failed flush is reconciled, a failed create leaves the segment in use |
| DiskQueues.DiskQueue.DropOldestSegment | src/buffer.rs:613-650 | one round of eviction: a lone write segment is rolled away from, the oldest segment goes, and the unread events in it are counted |
| DiskQueues.DiskQueue.RemoveOldest | src/buffer.rs:620-648 | bytes, count, cursor and peek after deleting the oldest segment |
| DiskQueues.DiskQueue.PeekBatch | src/buffer.rs:289-353 | the nested reading loops hand out exactly the payloads of the good records between the old and the new peek position, and count the bad ones they step over |
| DiskQueues.DiskQueue.ReadSegment | src/buffer.rs:314-348 | the inner loop on one segment, with both limits |
| DiskQueues.DiskQueue.AckLocked | src/buffer.rs:375-401 | the locked half of ack, for any number: cursor to the peek position, count reduced by the number and not below zero, segments wholly behind the cursor deleted, the cursor to be written held back |
| DiskQueues.DiskQueue.PersistCursor | src/buffer.rs:402-406 | the unlocked half: cursor.json becomes the held cursor, or stays as it was if the write failed |
| DiskQueues.DiskQueue.ResetPeek | src/buffer.rs:408-412 | what was handed out and not acknowledged will be handed out again |
| DiskQueues.DiskQueue.DataReady | src/buffer.rs:499-519 | the waiting test says yes exactly if the peek is not at the end of the write segment and the count is not zero; when it says no and the count is exact, no good record is left to hand out |
| DiskQueues.DiskQueue.DieAndReopen | src/buffer.rs:97-177 | from any sound state of a queue object, between two changes to its directory, dying with any part of the buffer written and opening again is the value-level crash |
| DiskQueues.DiskQueue.DieWritingAndReopen | src/buffer.rs:229-240 | dying in the middle of a write, with any prefix of buffer and record in the file and nothing repaired, and opening again is a crash of the queue that had stored the record |
| QueueBytes.TornWriteLeavesImage | src/buffer.rs:229-240 | the directory between a failed write and its repair is one that the queue could have left by dying after storing the record |
| QueuePush.PushStores | src/buffer.rs:179-252 | a stored push appends the record; what it evicted is a prefix of the unread records, counted exactly; the bytes stay within the cap; without I/O faults a push never fails |
| QueuePush.PushRefuses | src/buffer.rs:185-193 | `Full` and `Dropped` are answered if and only if the policy is block or drop_newest and the record does not fit, and then nothing else changes |
| QueuePush.PushFails | src/buffer.rs:184-248 | a failed push keeps every record whole on disk; its own record is in the queue if and only if room was made, the segment was open or could be opened, the write went through and creating the next segment failed, all of it told from the queue before the push |
| QueuePush.FailedButStored | src/buffer.rs:246-248 | a queue and a record for which the answer is an error and the record is stored |
| QueuePush.FailedWriteRolls | src/buffer.rs:229-240 | after a failed write the queue goes on in a fresh segment, unless none can be created, and nothing whole on disk is lost |
| QueuePush.RoomIff | src/buffer.rs:184-198 | the drop_oldest loop succeeds if and only if the write segment may stay or can be rolled away from, and leaves the cursor at the first segment boundary from which the rest fits, or where it was if that is further |
| QueuePush.DropSegmentProgress | src/buffer.rs:613-650 | each successful eviction lowers the bytes, or keeps them and lowers the number of segments |
| QueuePeek.PeekIsLongestRun | src/buffer.rs:289-353 | a peek takes the longest run of next readable records within the count and byte limits, at least one if any is readable and `max` is positive, across any segment boundaries |
| QueuePeek.WalkIsTake | src/buffer.rs:301-350 | reading segment by segment takes what one pass over the whole history would |
| QueueRuns.StepSafe | src/buffer.rs:31-69 | every step of every operation, acks of any number included, keeps the invariant: cursor before peek before the durable end, all on record boundaries, persisted cursor never ahead, what is in flight was handed out |
| QueueRuns.DurableNeverLost | src/buffer.rs:126-152 | over every run, crashes included, each record whole on disk stays; at the end it is ahead of the cursor in a segment the queue still has, or was acknowledged or evicted |
| QueueRuns.ReopenResumesAtOrBefore | src/buffer.rs:126-152 | reopening resumes at or before the acknowledged position, at or after the persisted one, forgets nothing whole on disk, and counts exactly |
| QueueAccounts.EveryRecordLeavesOnce | src/buffer.rs:375-395 | as long as one process has the queue open, whatever it found there, each record unread then or stored since is unread, acknowledged or evicted, exactly one of the three, and the counters have grown by what left |
| QueueAccounts.EveryRecordOfAFreshQueue | src/buffer.rs:375-395 | from a fresh directory that is every record ever stored |
| QueueAccounts.StepWithinIff | src/buffer.rs:375-379 | every step keeps `count` at most the unread records, except an ack that takes less off the count than the batch took off the unread |
| QueueAccounts.CountWithinOverRuns | src/buffer.rs:375-379 | `count` never exceeds the unread records over any run, evictions on events in flight included, whose acks are of at least what was handed out |
| QueueAccounts.CountExactOverRuns | src/buffer.rs:241-244 | `count` is exactly the number of unread events throughout any run, failed writes and crashes included, in which no eviction is bound to land on events in flight, as told before each step, and each ack is of what was handed out |
| QueueAccounts.PushFlightIff | src/buffer.rs:184-198 | after a push the number handed out is still what is in flight if and only if it was before and no good record in flight lies before the boundary up to which the push will evict, computed from the queue before the push |
| QueueAccounts.EvictFlightIff | src/buffer.rs:620-648 | the same for one eviction: no good record in flight lies before the second segment |
| QueueAccounts.WindowExactIff | src/buffer.rs:375-395 | from a queue whose count is exact, with a batch handed out, through any pushes, failed writes, rolls and evictions, the ack leaves the count exact if and only if none of them was bound to evict part of the batch, or nothing but the rest of the batch was unread |
| QueueAccounts.AckExactIff | src/buffer.rs:377-379 | ack leaves the count exact if and only if the number it subtracts is what is in flight, or nothing else was unread |
| QueueAccounts.AckCoversIff | src/buffer.rs:375-379 | after acknowledging `n` events the count stays within what is unread if and only if `n` covers the whole peeked batch |
| QueueAccounts.DriftAfterEviction | src/buffer.rs:640-648 | a concrete queue: peek, evict, ack subtracts the same event twice and leaves one unread event with a count of zero |
| QueueRoom.EvictionEndsIff | src/buffer.rs:185-198 | without I/O faults the drop_oldest loop ends if and only if the record alone fits the cap |
| QueueRoom.NoWedge | src/buffer.rs:381-395 | after a fault-free run from a short write segment, once everything is peeked and acknowledged only the write segment is left, shorter than a segment, and a record that fits beside the longest such segment is stored under every policy |
| QueueRoom.AlwaysAcceptsIff | src/buffer.rs:184-193 | under block and drop_newest, from a fresh queue with segments of at least ten bytes, a record is accepted after every fault-free run, once drained, if and only if `seg_bytes - 1` plus its length is within the cap |
| QueueRoom.PeekReachesEnd | src/buffer.rs:289-353 | a peek not cut short by its limits reaches the end of the write segment |
| QueueRoom.RepairedPushIsRead | src/buffer.rs:229-240 | however a push failed, the next fault-free push that fits is stored behind what is left, and a peek with enough allowance hands it out last |
| QueueRoom.WedgeWhenCapIsOneSegment | tests/e2e.rs:343-352 | a concrete queue whose cap is one segment: all acknowledged, count zero, and a record that fits the cap is refused; a record one byte shorter is stored |
| QueueRoom.WedgeLasts | tests/e2e.rs:343-352 | such a record goes on being refused through any peeks, acks, flushes and pushes of itself or longer records |
| OutputWorkers.BackoffDoubles | src/outputs/worker.rs:202-212 | the first wait is the initial one, and the wait after k failures in a row is the initial one times two to the k, at most the maximum |
| OutputWorkers.OutputWorker.RouterPushes | src/buffer.rs:179-252 | pushes between the worker's steps move the reader only past what they evict |
| OutputWorkers.OutputWorker.SendBatch | src/outputs/worker.rs:100-213 | the batch is the payloads of the records the peek handed out, the longest run after the peek position; it joins what was delivered if and only if the sink took all of it, and then failures and backoff are reset; otherwise the peek goes back to the cursor, the failure is counted and the backoff follows the run of failures |
| OutputWorkers.OutputWorker.Acknowledge | src/outputs/worker.rs:137-184 | what was sent is counted and joins the delivered batches before the cursor passes the whole batch, with pushes between the halves of ack; records of the batch that were not sent are marked as lost |
| OutputWorkers.OutputWorker.FinalFlush | src/outputs/worker.rs:217-242 | at shutdown any answer but an error has the whole batch acknowledged: of an answer of n the first n payloads join what was delivered, and the records of the rest are exactly those marked as lost |
| OutputWorkers.OutputWorker.OneTurn | src/outputs/worker.rs:93-213 | one iteration moves the queue, delivers and goes on or not as the turn function says, whatever is pushed at each of its waits |
| OutputWorkers.OutputWorker.Loop | src/outputs/worker.rs:93-213 | the loop does what its turns do one after the other, until one of them leaves it |
| OutputWorkers.OutputWorker.Run | src/outputs/worker.rs:84-243 | the run is the loop and then the last attempt; however sink, disk, router and cancellation behave, the cursor passes a good record only if the sink took it or it was evicted, or it was lost to a short answer at shutdown, and without a short answer none is; what was delivered is the good records of index ranges that follow each other, so nothing the sink took whole is sent again or out of order even around evictions; and if nothing can be evicted and none was lost they are exactly the acknowledged part of the queue |
| WorkerRuns.TurnDelivers | src/outputs/worker.rs:93-213 | what one iteration delivers, whatever is pushed meanwhile: nothing once cancelled; otherwise, from rest and an exact count with a working flush, the longest run of what is unread after the pushes, not empty if anything is, if the sink took all of it, and if not nothing, with nothing acknowledged and the peek back at the cursor |
| WorkerRuns.RunDelivers | src/outputs/worker.rs:215-242 | every run ends with the last attempt: it delivers what its loop did and then the part of the next batch that the sink claims, and with an empty script just that |
| WorkerRuns.FinalDelivers | src/outputs/worker.rs:217-242 | after an answer that is no error the cursor is past all of that batch, and after an error the peek is back at the cursor |
| WorkerRuns.TurnProgress | src/outputs/worker.rs:93-184 | every turn with a working flush and a sink that takes the whole batch leaves at least one good record fewer unread, and the count exact |
| WorkerRuns.RunProgress | src/outputs/worker.rs:84-243 | from rest and an exact count, with no pushes, working files and a sink that takes everything, each turn of the loop and the last attempt take at least one unread record, until none is left |
| Deliveries.PushStays | src/buffer.rs:185-193 | under block and drop_newest no push moves the cursor, whatever fails |
| Deliveries.AtLeastOnce | src/outputs/worker.rs:93-242 | over any number of processes, dying at any step and opened again, with any pushes, failed writes, sends, acks and resets, each good record that is whole on disk at any time stays, and at the end was taken by the sink, was evicted, had been acknowledged before the start, is ahead of the cursor in a segment the queue has, or was lost to a short answer at shutdown; and none was lost if and only if no answer was short |
| Deliveries.ShortAnswerLoses | src/outputs/worker.rs:225-239 | a queue with one record and a shutdown at which the sink takes none of it and says so: the record is acknowledged, neither sent nor evicted, and the count stays at one with nothing unread |
| TextLines.CutWindow | src/inputs/file.rs:694-713 | the byte loop that cuts lines computes the cut of its window, which CutIsRows describes |
| TextLines.CutIsRows | src/inputs/file.rs:694-713 | every window is a number of lines, each ended by LF or CR LF, and an unended rest; a read emits those of the lines that are not empty, in order and without terminator, and the rest too if it has MAX_LINE bytes, and consumes all but a shorter rest; nothing emitted is empty or has a line feed in it |
| TextLines.ReadNewLines | src/inputs/file.rs:677-715 | reading in pieces of any size cuts the window between the offset and the size seen, of at most the read budget and no further than the file reaches |
| TextLines.LinesOfRows | src/inputs/file.rs:697-709 | lines written with LF, with CR LF, or with empty lines in between come back as exactly the non-empty ones |
| TextLines.LinesAreRows | src/inputs/file.rs:697-709 | and every text, up to its last line feed, is so written |
| TextLines.PollsCutOnce | src/inputs/file.rs:677-715 | for an append-only file of short lines polled from a line start at any sequence of lengths, what is emitted is what cutting the consumed text once gives, and the offset is always a line start |
| TextLines.CutLosesNothing | src/inputs/file.rs:694-713 | a read hands on every byte it consumes except line terminators, in order |
| TextLines.ProgressIff | src/inputs/file.rs:709-713 | a read consumes something if and only if its window has a line feed or MAX_LINE bytes |
| TextLines.DrainEnds | src/inputs/file.rs:677-715 | reading a fixed file again and again ends with only an unterminated rest shorter than MAX_LINE |
| FileTailer.HeadFingerprint | src/inputs/file.rs:91-116 | however the reads are cut up, the first line, at most 512 bytes of it, is what is hashed |
| FileTailer.StableIffSettled | src/inputs/file.rs:78-84 | the fingerprinted head is the same under every append if and only if its line has ended or it is full |
| FileTailer.Tailer.Admit | src/inputs/file.rs:367-423 | a new path resumes from its saved cursor unclamped, or starts at the end if existing content is skipped and not read from the start, or at 0; a known one is left alone |
| FileTailer.Tailer.TailFile | src/inputs/file.rs:556-668 | one file: rotation, truncation, gated fingerprint, read; a new file at the path is read from its first byte, or from its own saved offset if it has one that still fits |
| FileTailer.PollReads | src/inputs/file.rs:556-668 | the result of any poll, from the entry and what the file shows: it is read from the recorded offset, for a new file from its saved one or 0, and from 0 if it is shorter than that or a fingerprint taken because something moved differs from the recorded one; the lines and the new offset are those of that part of the file |
| FileTailer.Tailer.TailPaths | src/inputs/file.rs:541-668 | one pass touches only the named entries and returns their results in order |
| FileTailer.RestartIff | src/inputs/file.rs:588-631 | a reading aid to TailFile, which carries the substance: a poll reads from 0 if and only if it was there already, the file shrank below the offset, or a fingerprint taken because size or mtime moved differs from the recorded one, and never from beyond the file |
| FileTailer.RecreatedReadsFromStart | src/inputs/file.rs:378-393 | a recreated file smaller than the saved offset it was admitted with is read from its beginning |
| FileTailer.GrowthRestartsIff | src/inputs/file.rs:592-631 | growth restarts a file whose recorded head was taken from a prefix of it if and only if a fingerprint is due and can be read, the first line was unfinished when the head was taken, and the checksum tells the two heads apart |
| FileTailer.GrowthKeepsOffset | src/inputs/file.rs:592-631 | growth alone never restarts an entry whose recorded head, if its offset is not 0, is that of a first line already complete |
| FileTailer.HeldNeverRestarts | src/inputs/file.rs:588-631 | that is every entry of a file that only grows, over any polls of which every fingerprint that is due can be read until the first line is complete: none of them restarts; reads of the file itself may fail |
| FileTailer.RestartRepeats | src/inputs/file.rs:619-631 | the other case: a first line seen unfinished, emitted at a poll that could not read its fingerprint, is emitted again at the next poll whenever the checksum tells the heads apart |
| FileTailer.GrowthCanRestart | src/inputs/file.rs:619-631 | as happens with "a", then "ab" and a line feed, then a second line "cd" |
| FileTailer.TailerIsPolls | src/inputs/file.rs:541-668 | on a file that only grows, over polls none of which restarts, whichever fingerprint and body reads fail, the tailer emits what bare polls of the text emit at the sizes at which it could be read |
| FileTailer.TailerCutsOnceIff | src/inputs/file.rs:541-715 | from a fresh entry, on a file of short lines, under any schedule of appends and polls and whichever fingerprint and body reads fail, the offset is a line start, and the lines emitted are those of the consumed text cut once if and only if no poll restarts after a line was emitted |
| FileTailer.TailerCutsOnce | src/inputs/file.rs:541-715 | so they are, whichever body reads fail, if every fingerprint can be read until the first line is complete |
| FileTailer.SeededAtEndRestarts | src/inputs/file.rs:389-393 | an offset seeded at the end of an unfinished first line is not safe: growth changes the head, and the file restarts at 0 exactly if the checksum tells the heads apart |
| TailDelivery.SendResults | src/inputs/file.rs:499-519 | whole results are sent in order and only then is their offset saved; the pass ends early only where cancellation is seen or a line is refused |
| TailDelivery.SendIsPolling | src/inputs/file.rs:499-519 | one pass of SendResults is, for each of its files, one visit: whole and saved before the interruption, cut short where it falls, cut before the first line after it |
| TailDelivery.PollDelivers | src/inputs/file.rs:541-668 | a poll all of whose lines are sent leaves every line before the new offset sent, whichever of its reads fail |
| TailDelivery.VisitGood | src/inputs/file.rs:556-584 | a poll that finds another file at its path, from its saved offset or its first byte, leaves every line before the new offset of that file sent |
| TailDelivery.AtLeastOnce | src/inputs/file.rs:458-584 | over any number of processes stopped anywhere, with files of short lines that are appended to, replace each other at a path and turn up at others, each resumed from any offset saved for it before, whichever reads of fingerprints or of files fail: every offset ever saved for a file is a line start of it, all its lines between where it was first followed from and that offset have been sent at least as often as they occur, and nothing but its lines is sent for it |
| TailDelivery.PollingOnWouldSkip | src/inputs/file.rs:638-647 | what that rests on: one more idle poll after a refused line, in the same session, would save the offset behind it |
| ChannelBudget.PermitsCoverIff | src/engine.rs:116-126 | the permits cover all the text of an event if and only if the 32-bit cast loses nothing, and then one permit fewer would not, but for the one that an event always costs |
| ChannelBudget.StepBalanced | src/engine.rs:139-226 | every step of every sender and of the pipeline keeps permits and gauge balanced, and no subtraction from the gauge saturates |
| ChannelBudget.BudgetConserved | src/engine.rs:139-255 | in every interleaving in which no blocking send gives up on its permits, permits available, held, queued and unreleased add up to the initial total; and in every one in which no async send is dropped, the gauge is the bytes of the credited, unreleased events |
| ChannelBudget.DriftIff | src/engine.rs:186-255 | whatever is cancelled, the gauge reads right if and only if no step of the run drops a send with bytes to its name after crediting it, and the permits add up if and only if no step releases an event that was admitted without permits |
| ChannelBudget.DropWitness | src/engine.rs:139-172 | a run after which the gauge is wrong for good: a send dropped while it waits for room in the channel |
| ChannelBudget.GiveUpWitness | src/engine.rs:186-226 | a run after which there are more permits than at the start: an event sent on after giving up on its permits |
| ChannelBudget.PaidWithinBudget | src/engine.rs:139-255 | whatever is dropped or given up on, as long as nothing unpaid has been released, the bytes of the queued events that paid for permits never exceed the configured budget, if each of these is of less than 4 TiB, so that its permits cover it |
| ChannelBudget.QueuedWithinBudget | src/engine.rs:139-172 | in every interleaving in which no blocking send gives up, however many async sends are dropped, all the text queued never exceeds the configured budget, for events of less than 4 TiB each |
| ChannelBudget.GiveUpExceedsBudget | src/engine.rs:186-226 | a run in which one does, after which an event larger than the whole budget is queued |
| StateStore.FlaggedIffChanged | src/state.rs:87-166 | a call sets the dirty flag if and only if it changes the state |
| StateStore.CursorReadBack | src/state.rs:87-129 | after setting a cursor its offset and hash are read back, its time stamp is fresh, and no other key changed |
| StateStore.CursorRefresh | src/state.rs:98-129 | setting it again within the minute changes nothing; otherwise the time stamp is the present, and a path comes with a moved offset or another hash |
| StateStore.CheckpointReadBack | src/state.rs:136-155 | a checkpoint is read back as set and an input once marked is known, and neither touches anything else |
| StateStore.StateManager.SetCursorFor | src/state.rs:87-129 | the method changes memory and flag as specified, with the once-a-minute refresh of idle entries |
| StateStore.StateManager.PruneOlder | src/state.rs:158-166 | exactly the cursors not touched since the cutoff go, the others and all else stay, and the flag is set if any went |
| StateStore.StateManager.Flush | src/state.rs:170-192 | a clean flush does nothing; a dirty one drops exactly the cursors not touched since the cutoff and writes the rest, and a failure keeps the old file and sets the flag again |
| StateStore.CleanIsPersistedIff | src/state.rs:87-192 | in every interleaving of mutators with one flusher, failed writes included, whenever the flag is clear and no flush is under way, the disk holds what memory holds if and only if no mutator stands inside its lock between its change and the flag |
| StateStore.ClearFlagIsNotEnough | src/state.rs:137-145 | that moment does occur: the flag clear, no flush under way, and disk and memory different |
| StateStore.FlushCatchesUp | src/state.rs:170-192 | one undisturbed successful flush leaves disk and memory equal and the flag clear |
| StateStore.SetCursorSurvives | src/state.rs:87-192 | in every interleaving, a cursor that was set and not set again since reads back from memory, and from disk once a snapshot taken since was written, as long as no cutoff reaches the minute before it was set |
| StateStore.ExpiredIsForgotten | src/state.rs:176-181 | and one whose time stamp is before the cutoff is gone from memory and disk with the next flush |
| Events.LookupAfterSet | src/event.rs:158-160 | setting a custom field changes that entry and no other |
| Events.SetKeepsSorted | src/event.rs:157-159 | setting an entry keeps the entries in the order of their keys, each key once |
| Events.SetLeavesOthers | src/event.rs:128-177 | setting or removing a field changes what is read under no other name, core or custom |
| Events.TextReadBackIff | src/event.rs:128-161 | a text that was set is read back if and only if the name is not one of the two that cannot be set nor of a code, and a timestamp reads as itself |
| Events.CodeReadBack | src/event.rs:141-142 | severity and facility are set and read each under its own name |
| Events.RemovedIsGoneIff | src/event.rs:164-177 | what was removed is gone if and only if it is not one of the core fields an event always has |
| Events.GetStrIff | src/event.rs:107-125 | borrowing a field answers a text if and only if the owned lookup gives that very text and the name is not one the event formats on demand |
| Rfc5424.SdEscape | src/outputs/format.rs:83-92 | the escaping loop |
| Rfc5424.EscapeRoundTrip | src/outputs/format.rs:83-92 | a PARAM-VALUE read as RFC 5424, section 6.3.3, prescribes gives back what was escaped and stops at the closing quote |
| Rfc5424.EscapeInjective | src/outputs/format.rs:83-92 | different values are escaped differently |
| Rfc5424.Rfc5424StructuredData | src/outputs/format.rs:36-68 | the loop over the fields builds the structured-data element, or the NILVALUE if nothing is to be emitted |
| Rfc5424RoundTrip.FieldsReadBack | src/outputs/format.rs:36-66 | a reader of the grammar of RFC 5424, section 6.3, finds in the printed element exactly the names and texts of the fields to be printed, in order, whatever the texts hold, and ends where the element ends |
| Rfc5424RoundTrip.PrintedIff | src/outputs/format.rs:36-66 | a name and text are printed if and only if a field has them, the value is not null, and the name is not empty, not that of raw structured data, and without control characters, spaces, equals signs, closing brackets and quotes |
| Rfc5424RoundTrip.NothingPrintedIff | src/outputs/format.rs:60-66 | the NILVALUE is printed if and only if no field is |
| Rfc5424.ParseRfc5424 | src/pipeline/syslog.rs:55-122 | the step-by-step parser accepts and fills in exactly what its specification says, timestamp included, and leaves a declined event alone |
| Rfc5424.ScanStructuredData | src/pipeline/syslog.rs:92-114 | the bracket-counting loop computes the scan, which ScanElementsIff describes |
| Rfc5424RoundTrip.ScanElementsIff | src/pipeline/syslog.rs:92-114 | of any number of elements in a row, the scan stops exactly behind the last if and only if nothing follows or none has an unescaped opening bracket inside |
| Rfc5424RoundTrip.ElementsReadIff | src/pipeline/syslog.rs:55-122 | in a line of any sender, with any header words and any number of elements, the structured data and the message are taken apart exactly where they meet if and only if no element has an unescaped opening bracket inside; the header is taken word by word |
| Rfc5424.PriRoundTrip | src/pipeline/syslog.rs:41-51 | a printed priority is read back as facility and severity, and declined exactly above 191 |
| Rfc5424.PriTakenIff | src/pipeline/syslog.rs:41-51 | a priority is taken from a line if and only if one to three characters in angle brackets spell a number up to 191, and it is that number |
| Rfc5424RoundTrip.ScannerStopsIff | src/pipeline/syslog.rs:92-114 | the scanner stops exactly at the closing bracket of a printed element if and only if no unescaped opening bracket was emitted in a key or value |
| Rfc5424RoundTrip.MessageKeptIff | src/pipeline/syslog.rs:89-120 | a message survives trimming and BOM stripping if and only if it starts with neither whitespace nor a BOM |
| Rfc5424RoundTrip.ReceivedIs | src/pipeline/syslog.rs:115-120 | what is taken of a message is all of it behind its leading whitespace and one byte order mark |
| Rfc5424RoundTrip.HeaderRoundTripIff | src/outputs/format.rs:10-18 | a printed line is declined if the facility is above 23; otherwise the parser takes from it what it carries, up to the clamping of the printer and the NILVALUE, if and only if no header word has a space in it |
| Rfc5424RoundTrip.RoundTripIff | src/pipeline/syslog.rs:55-122 | print then parse onto a fresh event recovers timestamp, facility, severity, host, application, process, message and the exact structured-data text if and only if no header word has a space in it, the values are present and in range, none is the NILVALUE, no bracket was emitted unescaped, the message start is plain, and the timestamp reads as itself (or cannot be read and is the one the fresh event has) |
| Rfc5424RoundTrip.PrintedDefaults | src/outputs/format.rs:94-98 | an event without facility, severity and names is printed with priority 14, the name of the agent and NILVALUEs |
| Framing.FrameBatch | src/outputs/stdout.rs:41-57 | the loop lays out the batch frame by frame |
| Framing.OctetCountingIff | src/outputs/stdout.rs:51-54 | a receiver written from RFC 6587, section 3.4.1, recovers the exact list of lines from an octet-counted batch if and only if no line is empty |
| Framing.NewlineIff | src/outputs/stdout.rs:47-50 | splitting on line feeds recovers the exact list if and only if no line contains one |
| Framing.Rfc5424BatchSurvives | src/outputs/stdout.rs:41-57 | every batch printed in the RFC 5424 format survives octet counting |
| Conditions.BorrowedAgrees | src/pipeline/condition.rs:117-143 | wherever the borrowed path answers, it answers as the owned path does |
| Conditions.CompiledMeansTheSame | src/pipeline/condition.rs:28-183 | a compiled condition holds of an event if and only if the condition does by its meaning on the owned field value, for every operator, literal and event; and a condition that is rejected at compile time is one that no event satisfies |
| Conditions.PresenceLaws | src/pipeline/condition.rs:64-104 | "exists" and "not_exists" say whether the field is there, and "ne" is the negation of "eq" wherever there is a literal |
| Conditions.EqualityLaw | src/pipeline/condition.rs:175-183 | "eq" holds of equal values and of values with the same text |
| Conditions.SpellingLaw | src/pipeline/condition.rs:175-183 | a boolean or number equals the text that spells it and no other, and null no text |
| Conditions.ContainsLaw | src/pipeline/condition.rs:120-123 | "contains" holds exactly of texts that can be cut around the literal |
| Conditions.OrderLaws | src/pipeline/condition.rs:72-86 | "gt" holds exactly if the number of the literal is less than that of the field, "lt" the other way round |
| Conditions.PatternLaw | src/pipeline/condition.rs:132-135 | "matches" holds exactly if the pattern compiles and the text of the field matches it |
| Conditions.ShadowingChangesNothing | src/event.rs:101-105 | a custom field named like a core one changes no answer |

## Left out

- OutputWorkers.OutputWorker.SendBatch: a sink that claims more events than it was given is taken to claim all of them.
- DiskQueues.DiskQueue.Push: under drop_oldest the record must fit the cap by itself, because the program loops forever otherwise; `QueueRoom.EvictionEndsIff` gives the exact condition.
- DiskQueues.DiskQueue.WriteRecord: a payload is not empty, as no encoding of an event is, and shorter than 4 GiB; `Records.PayloadRoundTripIff` says that the record is unreadable otherwise.
- DiskQueues.DiskQueue.Open: segment numbers are consecutive and closed segments are intact runs of records, as in every directory the queue itself wrote; a directory with gaps or broken framing made by other means is not modelled.
- DiskQueues.DiskQueue.PeekBatch: opening or reading a segment never fails with anything but the end of the file, and a payload whose checksum matches always decodes.
- DiskQueues.DiskQueue.ReconcileWriteSegment: the rescan and the truncation themselves succeed; the program promises no exact counters after such a double fault.
- Rfc5424RoundTrip.RoundTripIff: an event's timestamp is the token it prints as, without spaces, and reading a token is a parameter.
- FileTailer.Tailer.TailPaths: cancellation in the middle of a pass is a pass over fewer paths.
- TailDelivery.AtLeastOnce: a line counts as sent once the input channel has it; the channel itself is in memory. A session that was refused a line polls no more, as the channel closes only on cancellation. What is appended to a file after its last poll and before another one takes its path is read only if the file turns up at another path. A first run that skips existing content in the middle of a line is not covered; `FileTailer.SeededAtEndRestarts` says what happens to one. A file whose earlier bytes change is a rotation, a truncation or a restart, which `FileTailer.RestartIff` tells apart.
- StateStore.CleanIsPersistedIff: one flusher, and one order of all steps as seen by every thread.
- ChannelBudget.QueuedWithinBudget: the bound by the number of messages is not modelled, and the events are of less than 4 TiB each; `ChannelBudget.PermitsCoverIff` says that no more are covered.
- Power loss: segments are never synced, so flushed bytes are taken to survive; the atomic replacement of cursor.json and of the state file is one step.
- A write segment whose file was removed from outside, and failures of metadata and unlink calls.
- The scan's optional limit, which no caller uses, and the counters `is_full` and `oldest_age_secs`.
- The waiting of `push_blocking` and `wait_data`, sleeps and clocks.
- Read errors of the queue inside the worker, which only delay the next turn.
- Serialisation of events, the CRC, regular expressions, number parsing and value equality are parameters.
- Decoding of file bytes as UTF-8, and the file identity used on Windows; identities are given.
- Failover, routing between destinations, sockets, TLS, HTTP, the web interface, configuration, transforms, updates.
- The RFC 3164 and JSON formats, which carry no promise of being read back.
- src/outputs/mod.rs:36-38 says that a sink that takes part of a batch has all of it sent again. The code does so in its loop and not at shutdown, and the model follows the code; both built-in sinks report the whole batch or an error.
- docs/ARCHITECTURE.md:49 says that a checksum failure stops the reader at the bad record. The code steps over it, and the model follows the code.
