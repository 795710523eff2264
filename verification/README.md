# mtld3d: verified models of its protocols, formats and loops

mtld3d is a Direct3D 9 layer on Metal. This project models the parts of it whose
correctness is hard to see from the code, and proves what they promise.

- **Lease completion** (`Leases`, `LeaseInvariants`, `LeaseTheorems`, `LeaseCalls`, `LeaseProgress`): the
  lock-free notification queue between publishers and one consumer, as a transition system with one
  step per atomic operation. Any number of publishers and observers, the consumer and the
  cells' owner interleave; addresses are reset, freed and allocated again while stale
  copies of them are still around. The step history (queue, detached list, leases,
  winners, deliveries) is computed from the concrete steps and never consulted by them.
- **Upload events** (`Uploads`, `UploadCalls`): upload records with two notification cells each and one
  shared counter, layered on that machine.
- **Frame records** (`Wire`): the record writer with whole-record rollback and the reader.
- **Crash attribution** (`Attribution`, `AttributionLoop`): `run_binary` over a process
  launcher that may crash, hang, lose lines and misname culprits.
- **libtest output** (`TestEvents`, `Libtest`, `LibtestTheorems`, `LibtestSummary`): the line reader,
  what it recovers when other text lands between the writes of a result, and the counts.
- **Process groups** (`ProcessGroups`): ownership of a child's PID against a kernel whose
  every answer and delay is arbitrary.
- **Bounded cache** (`Recency`, `BoundedCaches`): time stamps against a recency list.
- **Conformance baseline** (`Conformance`, `Rerecord`, `Text`, `BaselineText`, `BaselineSample`): the
  re-record and gate algebra, the text form's round trip, and a file spelled out.
- **Mach-O identity** (`MachImage`) and **float truncation** (`Ftol`).

Check the whole project with `dafny verify dfyconfig.toml`.

Three promises hold only in part, and the model says exactly when:

- Every cleanup loop of a process group works to one deadline, but the retry after a refused
  group signal computes its own end from two clock reads. Given the two readings, a sleep of it
  can end past the deadline exactly when the deadline had not come at the first, the clock moved
  between them, and less than a second is left at the second (`RetryOverrunsExactly`). It is late by
  no more than the clock moved between the reads (`OverrunIsBounded`), and `OverrunHappens` is
  such a run. With both reads at one instant, or the first at or past the deadline, no sleep is
  late.
- A cache's stamps keep their order until the tick wraps, which a lookup that misses can bring
  about too. After the operation that wraps it, some order agrees with the stamps exactly when
  the cache holds nothing but the entry just stamped or, after a miss, is empty or holds a
  single entry stamped 0 (`WrapOrders`). The contracts of `Get` and `Insert` say it of the cache
  before: a key that is there was alone; a new key meets an empty cache or a capacity of 1.
  Elsewhere a later insertion may evict the most recently used entry. It does in every ordered
  cache of two or more that is full or one short and holds no stamp 0, nor 1 if a lookup wrapped
  the tick (`WrapEvictsTheNewest`, `MissedWrapEvictsTheNewest`).
- libtest's results are read back although other text lands between their writes. Under text that
  opens no test and, where an outcome is awaited, opens with no outcome, they are read back
  exactly, in order, if and only if each is intact: its name opens its line, nothing stands
  between name and outcome on the outcome's line but white space on a later line, and no word
  character continues the outcome (`ResultsAreRecovered`, `IntactMeans`). `test a ... xok` loses a
  result (`LetterLosesResult`), and with a second such print a test that passed is reported with
  another's failure (`OutcomeOfAnother`).

Assumptions made explicit in the model: atomics are sequentially consistent; a launcher
reports only tests it was asked for, each once per process, and a process that reported a
failure does not exit with 0 (`Attribution.HonestEnd`); the process group's owner is the only
waiter of its child; Unicode's alphanumeric class is a parameter of the libtest reader.

## Model

| member | source | states |
|---|---|---|
| LeaseInvariants.KeepsInv | unix/shared/src/encoder_wire.rs:337-499 | Every atomic step of every thread keeps the invariant that ties cells, links, calls in progress, leases and deliveries together |
| LeaseInvariants.ReachableInv | unix/shared/src/encoder_wire.rs:337-499 | The invariant holds in every reachable configuration of any interleaving |
| LeaseTheorems.NoDanglingAccess | unix/shared/src/encoder_wire.rs:367-427 | No publisher, observer or consumer step ever dereferences a cell its owner has released |
| LeaseTheorems.ReuseIsSafe | unix/shared/src/encoder_wire.rs:331-356 | The owner's check before a reset (no call running, unpublished or complete) implies the cell is on no list, not held by the consumer and not about to be linked |
| LeaseTheorems.ListsHoldExactlyTheUnconsumed | unix/shared/src/encoder_wire.rs:380-396 | The links from the head are finite and acyclic, disjoint from the detached list, and the two hold exactly the linked, unconsumed cells, however stale any copy of the head is |
| LeaseTheorems.DetachedListIsRead | unix/shared/src/encoder_wire.rs:450-452 | While it consumes, the consumer's cursor reads exactly the detached list |
| LeaseTheorems.OneWinnerPerLease | unix/shared/src/encoder_wire.rs:367-376 | A winning claim finds no earlier winner of the lease and records its state, kind and token; `WinnerPublishesItsState` says whose state that is |
| LeaseCalls.WinnerPublishesItsState | unix/shared/src/encoder_wire.rs:358-376 | Over any run, a call that wins its claim publishes the state it was called with: 1 for `publish`, 2 for `publish_rejected`, in the cell and on record |
| LeaseCalls.AnswerIsTheWinners | unix/shared/src/encoder_wire.rs:358-403 | Over any run, a `was_rejected` begun on the completed cell before its owner reuses it answers whether the call that won the lease was `publish_rejected` |
| LeaseCalls.DuplicateAddsNothing | unix/shared/src/encoder_wire.rs:367-376 | Whatever interleaves with it, no step of a call that loses its claim, racing or late, from its first to its last, writes a cell, moves the head or adds a winner or a delivery |
| LeaseCalls.LateCallLoses | unix/shared/src/encoder_wire.rs:367-376 | A call begun on a lease already won finds it won when it claims |
| LeaseTheorems.ConsumeDelivers | unix/shared/src/encoder_wire.rs:422-427 | Consuming returns the token the lease was published with, to a lease never delivered before |
| LeaseCalls.DeliversTheOwnersToken | unix/shared/src/encoder_wire.rs:337-427 | Over any run, what is delivered for a lease is the token its owner gave it when the lease began |
| LeaseCalls.ResetCompletedStays | unix/shared/src/encoder_wire.rs:344-356 | Over any run, a cell reset as completed reads complete and not rejected until its owner's next step on it |
| LeaseTheorems.DeliveredAtMostOnce | unix/shared/src/encoder_wire.rs:358-428 | No publication is consumed twice and nothing is consumed that was not published |
| LeaseTheorems.QuiescentDeliversAll | unix/shared/src/encoder_wire.rs:358-428 | With publishers finished and the queue drained, every queued publication has been delivered with its own token |
| LeaseTheorems.CompleteMeansWinnerGone | unix/shared/src/encoder_wire.rs:406-413 | From the first instant a cell reads complete, its winner has no step left on it and no list holds it |
| LeaseTheorems.CompleteCellIsFrozen | unix/shared/src/encoder_wire.rs:406-413 | Only the owner's own steps change a complete cell |
| LeaseTheorems.CompletionWordMoves | unix/shared/src/encoder_wire.rs:367-427 | Within a lease the completion word goes from 0 to 1 or 2 and then gains bit 4, nothing else |
| LeaseTheorems.CompleteAnswerIsTrue | unix/shared/src/encoder_wire.rs:406-413 | An `is_complete` that answers true is right when it answers, although it reads two words |
| LeaseCalls.CompleteCellIsAnswered | unix/shared/src/encoder_wire.rs:406-413 | Over any run, a call begun on a complete cell finds it complete: `is_complete` answers true and `was_rejected` goes on to its reload |
| LeaseTheorems.RejectionAnswerIsExact | unix/shared/src/encoder_wire.rs:401-403 | A `was_rejected` that reloads answers true exactly when the winner on record for the lease is a rejection |
| LeaseCalls.RejectionIsAnswered | unix/shared/src/encoder_wire.rs:401-403 | Over any run, a `was_rejected` begun on a complete cell answers exactly whether a rejection is on record for the lease the cell had when the call began; with `AnswerIsTheWinners`, whether the winner was called to reject |
| LeaseTheorems.RequeueKeepsRemainder | unix/shared/src/encoder_wire.rs:472-499 | While a requeue runs, no interleaved step changes what it will return |
| LeaseTheorems.RequeueReturnsRemainder | unix/shared/src/encoder_wire.rs:472-499 | The successful compare-exchange puts the remainder, whole and in order, before the queue as it stands then |
| LeaseTheorems.HasReadyIsExact | unix/shared/src/encoder_wire.rs:459-461 | With nothing detached, `has_ready` says whether a linked notification waits |
| LeaseProgress.PublishReturnsAlone | unix/shared/src/encoder_wire.rs:367-397 | From every reachable configuration a `publish` that nobody interrupts returns within five operations, however far the head has moved since it looked, and a cell it won is then in front of the queue |
| LeaseProgress.RequeueReturnsAlone | unix/shared/src/encoder_wire.rs:472-499 | From every reachable configuration a `requeue` that nobody interrupts returns after its walk and at most three more operations, with the whole list in front of the queue |
| LeaseTheorems.PublicationsAreConserved | unix/shared/src/encoder_wire.rs:450-499 | At every instant the queued publications are those delivered, detached, queued and being linked, by count |
| Uploads.EventNumbersIncrease | unix/shared/src/upload_feedback.rs:63-94 | Event numbers are nonzero and strictly increase in counter-update order |
| Uploads.SlotsHoldTheirOwnEvents | unix/shared/src/upload_feedback.rs:63-94 | A visible slot holds the number issued for it and no two slots of any records hold the same; `PublishSetsItsOwnSlot` says which call sets which slot |
| Uploads.SlotIsSetOnce | unix/shared/src/upload_feedback.rs:74-88 | No step changes a set slot, and a set stores an issued number |
| UploadCalls.PublishSetsItsOwnSlot | unix/shared/src/upload_feedback.rs:63-94 | Over any run, a `publish` that returns leaves the other outcome's slot as it was and counts nothing for it; its own slot, if it was set, stays and nothing is counted; if not, it holds a number counted for it during the call and its own cell is published |
| UploadCalls.PublishPanicsOnlyAtTheEnd | unix/shared/src/upload_feedback.rs:82-87 | Over any run, a `publish` panics only over an exhausted counter, and then has set no slot and counted nothing |
| UploadCalls.PublishNotifiesItsOwnCell | unix/shared/src/upload_feedback.rs:89-93 | Over any run, the cell a `publish` call publishes is its outcome's own, as published and not rejected |
| Uploads.NotifyIsAlwaysEnabled | unix/shared/src/upload_feedback.rs:88-112 | The encoder never publishes a released cell or over a running call |
| Uploads.ConsumedNotificationIsFinal | unix/shared/src/upload_feedback.rs:63-112 | A consumed notification announces a visible slot or comes from a record that publishes no more |
| Uploads.FinishedSlotsAreForever | unix/shared/src/upload_feedback.rs:95-121 | Over any run, a finishing record's slots never change again until it is retired |
| Uploads.ConsumedSlotIsForever | unix/shared/src/upload_feedback.rs:63-121 | Over any run, from the instant a notification is consumed its slot, set or not, keeps its value until the record is retired |
| Uploads.FinishDeliversBoth | unix/shared/src/upload_feedback.rs:95-112 | After `finish_notifications` and a drain each of the record's two notifications has been delivered exactly once |
| AttributionLoop.RunBinary | unix/e2e/src/attribute.rs:209-533 | Ends for every honest launcher; every verdict is about a target, none gets two, a complete run gives each exactly one; results are passed on as printed; `failed`, the hang outcome and the process count are exact; every process is one the launcher answered for, asked for a front of what was open at an allowed width; an error is the launcher's own or its invalid batch size; nothing follows a hang, under fail-fast no process follows a failure, and every verdict has its grounds earlier in the log |
| AttributionLoop.RunRound | unix/e2e/src/attribute.rs:230-510 | One round launches the one process it should, keeps the books and strictly decreases the measure over undone names, widths and deferred batches, or ends the batch |
| AttributionLoop.Settle | unix/e2e/src/attribute.rs:302-510 | A settled process leaves conserved books and a smaller measure, or a finished batch; and which of the ways of settling is taken, with whom it fails, what it runs again and what it puts aside, is decided as `Decided` spells out case by case |
| AttributionLoop.Attribute | unix/e2e/src/attribute.rs:420-509 | A test the unclean end convicts is failed; with none to convict the announced ones are kept for a serial process and the others put aside at full width; then the loop goes on, or under fail-fast the rest is reported as not run |
| AttributionLoop.Choose | unix/e2e/src/attribute.rs:420-509 | That choice, and that it conserves the names owed, adds nothing but verdicts and decreases the measure |
| AttributionLoop.VictimConvicts | unix/e2e/src/attribute.rs:420-451 | The test chosen is the first open one that a panic names; failing that, in a serial process or with one test open, the started one if it is open and else the first open one |
| AttributionLoop.CutBatch | unix/e2e/src/attribute.rs:234-242 | The batch to run is the front of the length the launcher asks for, a length of zero or past the end is refused, and the rest is put aside |
| AttributionLoop.SplitKeepsBooks | unix/e2e/src/attribute.rs:234-242 | Deferring the tail of a batch loses and repeats no name |
| Attribution.RoundConserves | unix/e2e/src/attribute.rs:268-330 | The names a process accounted for and those it left are together those it was asked for |
| Attribution.ReportEnd | unix/e2e/src/attribute.rs:268-300 | A process's printed and declared results become verdicts, each once and as given |
| Attribution.DigestMeans | unix/e2e/src/attribute.rs:244-256 | What the event callback gathers: the results printed, the start that nothing followed, the last summary |
| Attribution.CleanIsEndedWell | unix/e2e/src/attribute.rs:302 | An end is clean exactly when the test ended the process itself, or it exited with 0 and printed a summary |
| AttributionLoop.Announced | unix/e2e/src/attribute.rs:539-551 | Each test that named itself is listed once, in the order of first announcement, and no other |
| AttributionLoop.NothingFollowsHang | unix/e2e/src/attribute.rs:257-267 | The step from the loop's order to `RunBinary`'s clause that no process and no verdict follow a GPU hang |
| AttributionLoop.FailureStopsProcesses | unix/e2e/src/attribute.rs:490-521 | The same step for the clause that under fail-fast no process starts after a failure was reported |
| AttributionLoop.VerdictsAreGrounded | unix/e2e/src/attribute.rs:268-521 | And for the clause on grounds: `NotRun` only under fail-fast after a failure, a pass or an ignore on the word of an earlier process, a failure on that or on grounds that convict |
| Wire.FrameSlab.PushRecord | unix/shared/src/encoder_wire.rs:52-62 | A push adds the whole record or leaves no trace, stays within the `u32` limit, and fails only as the callback, the limit (`TooLarge`) or the allocator (`AllocationFailed`) did |
| Wire.FrameSlab.AppendRecord | unix/shared/src/encoder_wire.rs:65-82 | The patched length is the payload's and always fits; the callback's writes are the payload |
| Wire.FrameSlab.Append | unix/shared/src/encoder_wire.rs:153-164 | A write appends all or nothing, and `TooLarge` is returned exactly past the limit |
| Wire.WireReader.NextRecord | unix/shared/src/encoder_wire.rs:200-215 | Returns the front record, the end, or `Truncated` without moving |
| Wire.WireReader.Bytes | unix/shared/src/encoder_wire.rs:262-270 | Takes the range or returns `Truncated` without moving |
| Wire.SlabReadsBack | unix/shared/src/encoder_wire.rs:52-82 | After any pushes, failed ones included, reading the slab yields exactly its records in order |
| Wire.ReadsTruncatedPrefix | unix/shared/src/encoder_wire.rs:200-215 | Every prefix of a slab reads as its whole records, then ends cleanly at a boundary and is cut elsewhere |
| Wire.FittingIsGreatest | unix/shared/src/encoder_wire.rs:200-215 | Those whole records are as many as fit the prefix, and no more |
| Wire.FieldReadsBack | unix/shared/src/encoder_wire.rs:104-150 | Every field width reads back what was written and leaves the rest |
| Wire.FieldLayout | unix/shared/src/encoder_wire.rs:98-141 | A number takes one, two, four or eight bytes and its `k`-th byte is the `k`-th from the low end |
| Libtest.Parser.Line | unix/e2e/src/libtest.rs:77-115 | A line yields the events of its reading and leaves its pending name; the recursion on remainders ends. What a reading is worth, the rows below say |
| LibtestTheorems.OutcomesCloseOpenings | unix/e2e/src/libtest.rs:87-117 | Over any lines every closing outcome has its own earlier opening with its name and nothing but counts between, and no opening is closed twice |
| LibtestTheorems.OpeningsAreOnTheLine | unix/e2e/src/libtest.rs:87-117 | The openings a line yields stand on that line, in order and without overlap |
| LibtestTheorems.ResultsAreRecovered | unix/e2e/src/libtest.rs:77-141 | Under fair text before, between and after the writes of each, with newlines or without, a printed list of results is read back exactly, in order, if and only if every result is intact |
| LibtestTheorems.IntactMeans | unix/e2e/src/libtest.rs:87-141 | Intact, in terms of the text alone: nothing before the name, nothing before the outcome or white space on a later line, no word character behind it |
| LibtestTheorems.PrintsGive | unix/e2e/src/libtest.rs:77-141 | What the reader makes of the results that are not: to which test each outcome heard is credited, and which test is left open |
| LibtestTheorems.StuckTextLosesResult | unix/e2e/src/libtest.rs:94-106 | Any text on the name's line before the outcome, unless it opens with an outcome itself, loses the result and leaves the test open |
| LibtestTheorems.LetterLosesResult | unix/e2e/src/libtest.rs:94-106 | `test a ... xok` gives no result |
| LibtestTheorems.OutcomeOfAnother | unix/e2e/src/libtest.rs:109-116 | Three lines on which a passed test is reported as failed |
| LibtestTheorems.WrittenResultsAreRecovered | unix/e2e/src/libtest.rs:10-141 | The same from the characters as written: splitting them into lines and reading those gives the printed results if and only if every one is intact |
| LibtestTheorems.PlainNameIsReadable | unix/e2e/src/libtest.rs:87-117 | Of the names without blanks, `result:` alone is not read back |
| LibtestTheorems.WritesMakeLines | unix/e2e/src/libtest.rs:10-16 | The lines of a printed result are its three writes with the other text around them |
| LibtestTheorems.WordIsRead | unix/e2e/src/libtest.rs:126-141 | An outcome word is recognised exactly when the text behind it cannot continue it, and leaves that text trimmed |
| LibtestTheorems.GluedTextLosesResult | unix/e2e/src/libtest.rs:138-141 | Text glued to an outcome as a word loses that result and leaves the test open |
| LibtestTheorems.LoopSeesPrintedResults | unix/e2e/src/attribute.rs:244-256 | What the attribution loop digests from the written text is what was printed, under the same condition, and the test it takes to be running is the one left open |
| LibtestSummary.SummaryIsRead | unix/e2e/src/libtest.rs:143-163 | The closing line libtest prints, for any counts, either verdict and any closing part, is read as its counts, each in its place |
| LibtestSummary.LoopSeesPrintedSummary | unix/e2e/src/attribute.rs:244-256 | Behind any fair prints the loop's summary is the one printed, and the results and the running test are as without it |
| ProcessGroups.Live | unix/e2e/src/run.rs:375-625 | Any operations in any order and then `reap` or a drop, against any kernel: the trace is lawful, takes at most a hundred pauses, and ends with the PID released or the runner over, never both |
| ProcessGroups.NothingAfterTheEnd | unix/e2e/src/run.rs:369-374 | After a consuming wait or ECHILD no call names the PID and no fatal cleanup follows |
| ProcessGroups.ReapFollowsSignal | unix/e2e/src/run.rs:458-490 | A successful reap follows a group signal that was sent after exit was observed and took effect, found no group, or was refused with EPERM and then met by a second observed exit |
| ProcessGroups.QuitIsLast | unix/e2e/src/run.rs:610-625 | The runner ends only while it owns the child, as its last act |
| ProcessGroups.QuitHasACause | unix/e2e/src/run.rs:567-625 | The runner ends itself only after a group signal was tried, and for a cause its last call on the PID gives: an error that is no interruption, a refused signal, or the passed deadline with the child not to be had yet |
| ProcessGroups.OneDeadline | unix/e2e/src/run.rs:393-397 | All sleeps of an owner's life work to one deadline and end in time for their loop |
| ProcessGroups.OverrunIsBounded | unix/e2e/src/run.rs:560-563 | In every lawful trace no pause ends past the deadline, a retry sleeps only if the deadline had not come at its first clock read, and ends at most the time between its two reads past it |
| ProcessGroups.RetryOverrunsExactly | unix/e2e/src/run.rs:560-673 | For given deadline and clock reads, exactly when a sleep of the retry can end past the deadline |
| ProcessGroups.OverrunHappens | unix/e2e/src/run.rs:644-673 | A lawful run of `signal_group` in which a retry sleeps past the deadline |
| ProcessGroups.BudgetPause | unix/e2e/src/run.rs:634-641 | A pause starts only before the deadline and keeps the lifetime pause count within the budget |
| ProcessGroups.ProcessGroup.ObserveExit | unix/e2e/src/run.rs:400-442 | Observing returns the kernel's answer and keeps ownership except on ECHILD |
| ProcessGroups.ProcessGroup.Kill | unix/e2e/src/run.rs:445-457 | Success means the first answer that was no interruption found the leader there, running or exited, and the group was signalled next and the signal settled; an error is the last call's or the passed deadline |
| ProcessGroups.ProcessGroup.WaitKilled | unix/e2e/src/run.rs:460-474 | Success means the leader was looked for until it was seen to have exited, and a group signal next was settled, not merely refused; an error is the last call's or the passed deadline |
| ProcessGroups.ProcessGroup.TryReap | unix/e2e/src/run.rs:492-531 | Ownership ends exactly on a status or ECHILD |
| ProcessGroups.ProcessGroup.SignalGroup | unix/e2e/src/run.rs:534-564 | A signal is sent exactly when the child is owned, before anything else; what each answer comes to is exact, and success leaves the child owned and, after an observed exit, means the signal was settled |
| ProcessGroups.ProcessGroup.ResolveSignalError | unix/e2e/src/run.rs:644-673 | ESRCH is forgiven; EPERM only once exit is observed again, and is returned only when the time is over without that or the look fails; any other error is returned |
| ProcessGroups.ProcessGroup.Reap | unix/e2e/src/run.rs:477-489 | A returned status is the one the last consuming wait gave, an error is that of the call it came from, and the owner is settled on every path |
| ProcessGroups.ProcessGroup.Drop | unix/e2e/src/run.rs:567-606 | Dropping an owned child looks at it first and signals its group next unless it was lost, and ends with the PID released or the runner over, within the one budget |
| Recency.LargerCacheIncludes | unix/shared/src/bounded_cache.rs:25-104 | Under one operation sequence from empty, all a smaller recency list holds a larger one holds with the same value |
| BoundedCaches.Perform | unix/shared/src/bounded_cache.rs:50-104 | Any operations on an empty cache, no more than the tick can count, leave exactly the recency list they describe |
| BoundedCaches.LargerCacheHoldsMore | unix/shared/src/bounded_cache.rs:25-104 | Of two caches that did the same operations, the larger holds every entry of the smaller with its value |
| Recency.RunKeeps | unix/shared/src/bounded_cache.rs:58-84 | Over every operation sequence keys stay unique and the size within the capacity |
| BoundedCaches.BoundedCache.Get | unix/shared/src/bounded_cache.rs:50-56 | A hit moves the entry to the front of the recency list and returns its value; a miss changes only the tick; at the wrap, for exactly which caches an order remains |
| BoundedCaches.BoundedCache.Insert | unix/shared/src/bounded_cache.rs:58-84 | Inserting is the recency list's insertion, and a full insertion of a new key evicts exactly the least recently used entry; at the wrap, for exactly which caches an order remains |
| BoundedCaches.BoundedCache.Remove | unix/shared/src/bounded_cache.rs:86-89 | Removing takes the key and its value out of the list, in place by swapping |
| BoundedCaches.BoundedCache.Oldest | unix/shared/src/bounded_cache.rs:65-73 | The scan finds the first entry with the smallest stamp |
| BoundedCaches.SmallestStampIsLast | unix/shared/src/bounded_cache.rs:65-73 | The smallest stamp belongs to the last of the recency list, wherever it is stored |
| BoundedCaches.WrapOrders | unix/shared/src/bounded_cache.rs:100-104 | After a wrap the entries can be ordered by their stamps exactly when there are none or a single one stamped 0 |
| BoundedCaches.WrapEvictsTheNewest | unix/shared/src/bounded_cache.rs:58-104 | In any ordered cache of two or more, full or one short and without a stamp 0, an insertion that wraps the tick is undone by the next one: it evicts the entry just inserted, where the recency list evicts an earlier one |
| BoundedCaches.MissedWrapEvictsTheNewest | unix/shared/src/bounded_cache.rs:50-104 | The same when a lookup that misses wraps the tick and two insertions follow |
| Rerecord.Merge | unix/conformance/src/merge.rs:44-104 | The merged baseline is the run's entries, skips keeping prior counts, with every other leg untouched; the summary lists carried, new, dropped and skipped sites in iteration order |
| Rerecord.Diff | unix/conformance/src/diff.rs:44-179 | The gate is regressed (stale) exactly when some measured site moved up (down) beyond its class's tolerance or a crash appeared (cleared) |
| Rerecord.RecordedRunIsClean | unix/conformance/src/diff.rs:44-179 | A run held against the baseline just merged from it is neither regressed nor stale, for any classes and skips |
| Rerecord.MergeIsIdempotent | unix/conformance/src/merge.rs:44-104 | Merging a run twice equals merging it once |
| Rerecord.SecondMergeReportsNothing | unix/conformance/src/merge.rs:69-101 | The second merge finds no new and no dropped site and carries what the first recorded |
| Rerecord.OrderOfLegsIsFree | unix/conformance/src/merge.rs:10-13 | Re-recording any number of legs, each once, gives the same entries in every order |
| Rerecord.LegIsRecorded | unix/conformance/src/merge.rs:10-13 | However many legs are re-recorded, each ends up as its own merge into the first baseline made it |
| Rerecord.OtherLegsStay | unix/conformance/src/merge.rs:35-66 | A leg nobody re-recorded keeps its entries through any number of merges and gains none |
| Rerecord.SitesAreAccounted | unix/conformance/src/merge.rs:69-101 | Every prior site is carried, skipped or dropped, every recorded one carried, new or skipped, each once |
| Rerecord.CrashedRunRetainsNothing | unix/conformance/src/model.rs:158-169 | After a crashed run the record holds what the run counted, and no prior count is kept for a skip |
| Rerecord.SkipRetainsThePriorCount | unix/conformance/src/merge.rs:78-84 | A completed run keeps the prior count of a site it skipped and did not see fail, and of no other |
| Rerecord.HeaderIsTheLastTold | unix/conformance/src/merge.rs:40-51 | After any merges the header is the last version a session could tell, or else the first baseline's |
| Rerecord.SummaryNames | unix/conformance/src/merge.rs:69-103 | A summary list names a site exactly when the site is so under some key |
| Rerecord.GateIsExact | unix/conformance/src/diff.rs:3-14 | Without tolerances and skips the gate passes exactly the runs whose crash bits and counts are the recorded ones |
| Rerecord.GateTolerates | unix/conformance/src/diff.rs:44-179 | With tolerances and skips: the gate is not regressed (stale) exactly when no measured subtest is worse (better) than recorded, where a recorded flaky site may move both ways, a recorded ceiling down, and a site skipped by a completed run is no evidence |
| BaselineText.RoundTrip | unix/conformance/src/model.rs:385-514 | Parsing the printed baseline gives it back exactly when its version is trimmed and on one line and its file names hold no white space |
| BaselineText.ParsedIsClean | unix/conformance/src/model.rs:418-455 | Any parsed baseline, from any text, satisfies that condition |
| BaselineText.RewriteIsStable | unix/conformance/src/model.rs:379-384 | A baseline read from any text survives being written and read again |
| BaselineText.ReturnsAreDropped | unix/conformance/src/model.rs:418-455 | A file saved with carriage returns means what it meant without them |
| BaselineSample.SampleMeans | unix/conformance/src/model.rs:309-514 | What a small file means, which holds every architecture, variant, GPU family and subtest name, both crash bits, a site, and a leg with its implicit parts written out |
| BaselineText.LegRoundTrip | unix/conformance/src/model.rs:284-295 | Every leg's text parses back to it |
| BaselineText.HeaderParses | unix/conformance/src/model.rs:458-481 | Every printed section header parses to its key and crash bit |
| BaselineText.SiteParses | unix/conformance/src/model.rs:483-514 | Every printed site without white space in its file name parses to its site and count |
| BaselineText.ToText | unix/conformance/src/model.rs:385-410 | The printed text is the preamble and the entries in key and site order |
| BaselineText.FromText | unix/conformance/src/model.rs:418-455 | The parser's loop computes the fold of its line steps, with the failing line's number |
| Conformance.SortedIsCanonical | unix/conformance/src/model.rs:379-383 | Sites have exactly one ascending listing, so output order is determined by the contents |
| Conformance.KeyHasRank | unix/conformance/src/model.rs:210-236 | The legs and subtests listed are all there are |
| MachImage.MachUuid | unix/shared/src/identity.rs:574-603 | Returns a UUID exactly when the declared commands tile the declared extent and those name one |
| MachImage.UuidIsTheLast | unix/shared/src/identity.rs:585-603 | Commands name a UUID exactly when no UUID command is short and there is one, and it is the last one's |
| MachImage.WellFormedOnce | unix/shared/src/identity.rs:574-603 | An image has at most one reading as load commands |
| MachImage.OnlyTheExtentMatters | unix/shared/src/identity.rs:566-577 | No byte behind the declared extent plays a part |
| MachImage.CountFits | unix/shared/src/identity.rs:578-580 | The early count check rejects no well-formed image |
| MachImage.SmallestImageIsRead | unix/shared/src/identity.rs:448-603 | Any answer of the reader to the smallest image with a UUID, given byte by byte, is that UUID |
| Ftol.TruncatesTowardZero | unix/shared/src/ftol.rs:26-46 | Every bit pattern gives its real value rounded toward zero below 2^63 and the least integer otherwise, infinities and NaNs included |
| Ftol.NothingOverflows | unix/shared/src/ftol.rs:34-45 | No shift leaves the word or loses a bit, and the magnitude fits a signed word |
| Ftol.ScaleIsProduct | unix/shared/src/ftol.rs:34-45 | The value a pattern encodes is its significand times a power of two |

## Left out

- Metal, AppKit, Wine and signal-handler glue: foreign calls with nothing to prove behind them.
- Draw-call encoding and the encoder's service handlers: calls into Metal driven by the records.
- Command and parameter layouts: constants and field lists shared by the two sides of the Wine bridge.
- `trig.rs`: polynomial sine and cosine, whose claims are floating-point error bounds.
- `crumb.rs`: a diagnostic ring buffer in a memory-mapped file, read only when a process crashes.
- Weak memory orderings: every atomic is sequentially consistent.
- Several queues: one completion queue is modelled; a cell's queue address is a yes or no.
- Libtest.Parser.Line: the Unicode alphanumeric class is a parameter, and panic, failure and listing reports are not modelled.
- Uploads.SlotIsSetOnce: a duplicate event's log line is not modelled, and sequence exhaustion ends the record's encoder.
- AttributionLoop.RunBinary: report texts, notes, kept files and layer logs are not modelled; standard error is the names it announced and the names its panic reports give.
- AttributionLoop.Settle: the three counts of a summary are added without bound, where the source adds `u32` values; the two differ only for counts that add up past `u32::MAX`.
- AttributionLoop.Announced: the line format behind an announcement is not modelled.
- ProcessGroups.Live: spawning, reader threads, the bounded wait before cleanup and the drained standard error are not modelled; a sleep may last longer than asked, so the bound is on when sleeps are asked to end.
- Rerecord.Diff: the report text and the totals it prints, and with them the `u32` overflow of those totals, are not modelled.
- Rerecord.Merge: panic texts and the upstream flaky and todo markers of a result are not modelled; no decision reads them.
- BaselineText.FromText: an error is its kind and line number, not its message.
- BoundedCaches.BoundedCache.Clear: `drain` and the accessors that only look are not modelled.
- MachImage.MachUuid: the loader's address arithmetic, UUID formatting and the PE half of the identity code are not modelled.
- The version note and the unrecorded-leg note of the gate, `wait_bounded`, stderr draining and retention pruning: reports and plumbing around the decisions modelled.
