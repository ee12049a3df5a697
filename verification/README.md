# A verified model of TreadMarks, of grpc-go's retries, and of a shared sum

The project models the protocols of the TreadMarks distributed shared memory runtime (`Tmk/src`) and, beside it,
the client retry machine and the handler quota of grpc-go, and the split of a shared array among processes.

**TreadMarks.** Processes share pages. A process that writes a page keeps a twin of it; when an interval of its
execution ends, the pages it wrote become write notices, stamped with a vector time; what it wrote is turned into a
diff only when somebody asks. Locks and barriers carry the intervals that the other side lacks.

| module | what it holds |
|---|---|
| `LockProtocol` | the queue of a lock: manager, `tail`, `next` links, requests, forwards and grants in flight |
| `Clocks` | stamps, happened-before, causal closure |
| `NoticeOrder`, `Batching` | sorting the pending notices of a page and packing them into requests |
| `DiffCodec`, `Confluence`, `DiffRequest` | diffs as runs of words, applying them in any legal order, and a page fetched from the words of the replies |
| `Packets` | a reply of many diffs in messages of limited size, and its reader |
| `IntervalCodec`, `WireMessages` | intervals as 16-bit words, and that the words say what the processes mean |
| `PageRuns` | dirty and invalidated pages coalesced into maximal runs in a doubly linked list |
| `Nodes`, `Processes` | one process: clock, intervals, page states, twins, diffs; as a value and as an object |
| `PageStacks`, `Requests` | the stacks of notices of a page, and the diff requests that the pending ones become |
| `Systems`, `SystemSteps`, `Runs` | all processes together: faults, requests, grants, barriers, every interleaving |
| `Causality`, `Fetches` | when the stamps of a run are causally closed, and when a diff request can be answered |
| `ManagerChoice`, `Collection` | garbage collection after a barrier |
| `Guarantees`, `InverseTimes`, `ReleaseConsistency`, `Barriers` | what holds in every reachable state, collections included |
| `LateGrantSteps`, `LateGrant` | runs in which closure, a fetch and a collection go wrong |
| `RetryStream`, `RetryRuns`, `RetryClient` | replaying operations on new attempts until the stream commits; what whole runs do |
| `HandlerQuota` | the semaphore that limits concurrent handlers |
| `WorkSplit` | the slices of an array and the lock-protected sum |

A write notice is a page, a process and a time; it exists exactly if the interval of that time names the page, so the
stacks of notices are read off the lists of intervals, and what is kept beside them is which notices have their diff.
In `Systems` one step is one handler or one call between two waits. A step may come at any moment, to any process;
messages arrive once. Which process grants a lock to which request is left open there: `LockProtocol` shows that it is
one at a time. Fetching the diffs of a page is one step: the requests are those that sorting and packing the pending
notices gives, whatever the stamps, and the servers make the diffs they are asked for. A process that is asked for a
diff it has neither got nor a twin to make it from would go on with a wrong or missing twin; there the model sets
`failed` and stops. A reachable state is one that any run leads to, with any number of collections before it in which
every page's manager kept a copy; a carefully reachable one is reached, since the last collection, by a run in which no
manager that is still collecting arrivals grants a lock from a clock that is not closed.

What the code does that its comments, or the properties one would expect of it, do not say:

- The comment at `Tmk/src/interval.c:245-249` gives 65536-NPROCS-1 as the highest page id. That number is the escape
  word of the encoding: a range of one or two pages ending at that page cannot be told from the start of a longer range,
  and the reader takes the next two words for its ends (`IntervalCodec.HighestPageId`: exactly then). It is a defect of
  the comment that no configuration reaches: `Tmk/include/Tmk.h:60-63` sets the number of pages to 8192 or 16384 and
  `Tmk/src/startup.c:639-641` rejects more.
- Causal closure fails if the manager of a barrier, while it is still collecting arrivals, grants a lock: it passes on
  the intervals of a process that has arrived without those that process had seen (`LateGrant.NotAlwaysCausal` is such
  a run). The clock of a process is closed exactly if it has seen all that the newest interval it holds of each process
  had seen (`Causality.ClosedIff`); a step breaks closure exactly if it is a grant by a collecting manager whose clock
  is not closed (`Causality.StepCausal`), and a run keeps closure throughout exactly if it has no such step
  (`Causality.CausalIffCareful`).
- After such a grant a page fetch can fail: the packing of `Tmk/src/diff.c:317-385` relies on closure and can ask a
  process for a diff it has neither got nor a twin for (`LateGrant.FetchCanFail` is such a run). A fetch fails exactly if
  a diff is asked of a process that is not its maker and has not got it (`Guarantees.RequestFailsIff`); it never does
  where having seen is transitive among the pending notices, so never in a careful run (`Guarantees.DiffsCanBeServed`).
- After such a grant a collection can lose a page: everybody names as manager a process that discards its copy
  (`LateGrant.PageCanBeLost` is such a run). The manager keeps a copy exactly if its copy is valid or nobody's newest
  notice of the page had seen its own (`Guarantees.NoPageIsLost`), which is always so in a careful run.
- A cleanup of a gRPC message is lost if the stream is committed, on the same attempt, while the message is being sent:
  `bufferForRetryLocked` then returns without running or keeping it, and `SendMsg` takes it for kept
  (`RetryStream.CleanupCanBeMissed` is such a run). At commit with no send under way every cleanup has run exactly if no
  operation with a cleanup succeeded on the current attempt after the commit (`RetryStream.AllCleanedIff`).
- If a retry is cut short because no new attempt can be made, the current attempt is in step with the replay buffer
  exactly if no attempt of that retry got past the first buffered operation (`RetryStream.AbortedInStep`); otherwise the
  stream goes on with an attempt that lacks operations in the buffer (`RetryStream.AttemptCanFallBehind` is such a run).
- A negative limit of the replay buffer makes opening a stream call a cleanup that is not there
  (`RetryStream.NilCalled`); with any other limit that never happens (`RetryStream.NilNotCalled`).

## Model

| member | source | states |
|---|---|---|
| `LockProtocol.LockEntry.constructor` | Tmk/src/lock.c:946-956 | every entry starts unheld, with `next` and `tail` at process 0, which so has the token |
| `LockProtocol.LockEntry.Acquire` | Tmk/src/lock.c:193-207 | the entry and the outcome of an acquire: an error if held, entry if `next` is the process, else a request to the manager or, at the manager, to `tail`, which moves |
| `LockProtocol.LockEntry.Handle` | Tmk/src/lock.c:328-362 | the entry and the outcome of a request: granted, queued behind the holder, forwarded to `tail`, or the error exit |
| `LockProtocol.LockEntry.Release` | Tmk/src/lock.c:410-442 | the entry and the outcome of a release: passed on to `next`, kept, or the error exit |
| `LockProtocol.StepInv` | Tmk/src/lock.c:174-443 | every step of every process and message, in any state of the invariant, keeps a queue that starts at the token and ends at `tail` |
| `LockProtocol.OneToken` | Tmk/src/lock.c:193-206 | in every run, for any number of processes: exactly one process has the token, inside, on its way or idle, no error exit is taken, and no two equal messages are ever in flight |
| `LockProtocol.MutualExclusion` | Tmk/src/lock.c:328-362 | in every run two processes inside are the same process |
| `LockProtocol.RequestIsExpected` | Tmk/src/lock.c:328-362 | in every run a request in flight reaches a process that grants, queues or forwards it; the handler's error exit is unreachable |
| `LockProtocol.QueueFromLinks` | Tmk/src/lock.c:345-359 | in every run `next` links and requests in flight spell an acyclic queue from the token to the manager's `tail` that has every process whose request the manager has handled, and grants follow the order in which `tail` moved |
| `LockProtocol.ManagerPointsAtItself` | Tmk/src/lock.c:198-207 | in every run the manager's `next` is itself exactly if its `tail` is |
| `LockProtocol.SomethingCanHappen` | Tmk/src/lock.c:410-434 | in every run in which some process waits there is a message to deliver or a holder to release |
| `NoticeOrder.SortIsLinearExtension` | Tmk/src/diff.c:278-307 | for causally closed stamps the sorted array is a permutation of the pending notices in which no notice has been seen by one placed after it |
| `NoticeOrder.SortPermutes` | Tmk/src/diff.c:278-307 | whatever the stamps, the sorted array holds each pending notice once |
| `NoticeOrder.SortPending` | Tmk/src/diff.c:278-307 | the loops over the array with its sentinel compute exactly that sort |
| `NoticeOrder.InsertList` | Tmk/src/diff.c:285-305 | inserting one process's pending notices, newest first, never looking left of the last one placed |
| `NoticeOrder.Seek` | Tmk/src/diff.c:288-296 | the search without a bound test stops at the first notice the new one has seen, or at the sentinel |
| `NoticeOrder.ShiftIn` | Tmk/src/diff.c:298-305 | shifting the tail up, sentinel included, is insertion at that place |
| `NoticeOrder.PendingIsPrefix` | Tmk/src/diff.c:285-287 | the notices taken are those before the first that has its diff |
| `Batching.Pack` | Tmk/src/diff.c:311-385 | for any stamps the greedy packing ends and its requests cover the sorted notices from the high index down without gap or overlap; where having seen is transitive each goes to a process whose interval had seen every notice in it |
| `Batching.FindDominator` | Tmk/src/diff.c:358-371 | for any stamps the search, which starts over at each failure, finds the highest notice whose maker had seen everything between it and the last one asked for, or shows that there is none |
| `Batching.PackCovers` | Tmk/src/diff.c:317-385 | the requests cut the array for any stamps, and where having seen is transitive every addressee had seen all it is asked for |
| `Batching.PackIsGreedy` | Tmk/src/diff.c:317-371 | for any stamps a request ends only where no notice further down was made by a process that had seen all it asks for, so requests are not split without need |
| `Batching.AskedOnce` | Tmk/src/diff.c:311-385 | every notice is in exactly one request; where having seen is transitive that goes to a process that had seen it |
| `Batching.CausalIsSighted` | Tmk/src/diff.c:311-385 | causal closure gives what the packing needs: having seen is reflexive and transitive |
| `DiffCodec.RoundTrip` | Tmk/src/diff.c:189-257 | applying the diff of a page and its twin, wherever it stands, to any page replaces exactly the words that differ and ends exactly after the diff |
| `DiffCodec.EncodeSize` | Tmk/src/diff.c:511-712 | a diff is at most two words longer than the page |
| `DiffCodec.EncodeCost` | Tmk/src/diff.c:511-712 | a diff has exactly one word for each word changed, one for each maximal run of them, and one to end it |
| `DiffCodec.ScanIsEncode` | Tmk/src/diff.c:511-712 | the scan with its open run gives the encoding |
| `DiffCodec.ScanPage` | Tmk/src/diff.c:511-712 | the comparison four words at a time, with the header of the open run written afterwards, follows that scan and touches nothing else |
| `DiffCodec.Create` | Tmk/src/diff.c:98-104 | a diff begun below the end of the heap is the encoding, stays within the overflow area, and leaves the rest of the heap alone |
| `DiffCodec.CopyRun` | Tmk/src/diff.c:201-254 | copying one, then two, then four words at a time copies the run |
| `DiffCodec.Apply` | Tmk/src/diff.c:189-257 | the decoder in place gives the page and the end position of the specification |
| `Confluence.NewestWriterWins` | Tmk/src/diff.c:480-502 | in an order that respects happened-before, each word ends with its newest writer's value |
| `Confluence.Confluent` | Tmk/src/diff.c:285-305 | without races, all orders that respect happened-before leave the same page |
| `DiffRequest.FetchedPage` | Tmk/src/diff.c:267-504 | the page read from the words of the replies to the packed requests is the one that any order of the pending diffs respecting happened-before leaves; no reply gets the reader stuck or leaves a message unread |
| `Packets.Reply` | Tmk/src/diff.c:771-816 | whole diffs in the order asked, in messages within the MTU and the entry limit under consecutive numbers, each closed only if the next diff does not fit, the entries are used up or nothing is left |
| `Packets.Enter` | Tmk/src/diff.c:785-793 | lengthening the last entry or adding one appends the diff to what the message carries |
| `Packets.ReplyArrives` | Tmk/src/diff.c:464-502 | from any messages that carry the diffs of a request the reader applies exactly those, in order, reads all messages and waits for no other |
| `Packets.Receive` | Tmk/src/diff.c:464-502 | the reading loop in place does what the specification of the reader says |
| `IntervalCodec.MessageBack` | Tmk/src/interval.c:343-453 | decoding an encoded list gives back the process ids, vector times and pages of the intervals that are new, and passes over the old ones |
| `IntervalCodec.IntervalBack` | Tmk/src/interval.c:254-301 | one interval comes back, and skipping it stops at the same word as reading it |
| `IntervalCodec.SplitSamePages` | Tmk/src/interval.c:286-296 | a range of two pages comes back as two pages: the same pages in the same order |
| `IntervalCodec.RequestProc` | Tmk/src/interval.c:254-301 | the search back and the writing loop encode exactly the intervals newer than a time |
| `IntervalCodec.WriteRanges` | Tmk/src/interval.c:282-298 | the loop over the ranges writes their encoding |
| `IntervalCodec.ReadRanges` | Tmk/src/interval.c:383-443 | the loop over the words of an interval reads its ranges and stops where they end |
| `IntervalCodec.ReadMessage` | Tmk/src/interval.c:343-453 | the loop over a message keeps the new intervals and the clock they lead to |
| `IntervalCodec.SkipOld` | Tmk/src/interval.c:450-452 | the loop that passes over an old interval |
| `IntervalCodec.HighestPageId` | Tmk/src/interval.c:245-249 | the pages of an interval, wherever it stands in a message, are read back, and the reader stops right behind them, exactly if no range is one or two pages ending at the page whose id is the escape word |
| `WireMessages.NewerIsAfter` | Tmk/src/interval.c:265-276 | in a list contiguous in its own time the search back stops exactly where the time ends |
| `WireMessages.WireIsMessage` | Tmk/src/interval.c:306-319 | what is written for a vector time is, process by process, exactly what its owner lacks |
| `WireMessages.ReadBackIsSame` | Tmk/src/interval.c:383-443 | what is read back names the same process, times and pages |
| `PageRuns.Merge` | Tmk/src/page.c:410-485 | adding a page keeps the list the first pages of the maximal runs, `partner` the ends of each run, and a toggle set exactly where the set begins or ends; other pages' links are untouched |
| `PageRuns.TakeRuns` | Tmk/src/interval.c:186-241 | walking the list gives every page of the set one more notice, each run as one maximal range, and leaves the list empty and every toggle clear |
| `PageRuns.PageTable.DirtyMerge` | Tmk/src/page.c:448-485 | a page joins the dirty set; both lists, which share their links, stay coalesced |
| `PageRuns.PageTable.InvalMerge` | Tmk/src/page.c:410-446 | a page joins the set to invalidate; both lists stay coalesced |
| `PageRuns.PageTable.CreateNotices` | Tmk/src/interval.c:186-241 | each dirty page gets exactly one notice and the dirty set is empty |
| `PageRuns.PageTable.PerformInval` | Tmk/src/page.c:370-408 | each page of the set is covered by exactly one call, for a maximal run, and the set is empty |
| `Nodes.CreateKeeps` | Tmk/src/interval.c:172-243 | closing an interval keeps the invariant of a process: contiguous lists, ascending own stamps, twin coverage, valid pages without pending notices, diffs at hand for all that own intervals had seen |
| `Nodes.LearnCases` | Tmk/src/interval.c:355-448 | noting one new interval keeps that invariant; the process's own list grows by nothing or by the one interval that was open |
| `Nodes.ClockMerge` | Tmk/src/interval.c:324-456 | incorporating what a sender has and a vector lacks gives the pointwise maximum of the clocks, the own component growing by at most one, and the longer of each list; a second time it changes nothing |
| `Nodes.FetchKeeps` | Tmk/src/mmap.c:107-113 | bringing a page up to date keeps the invariant |
| `Nodes.MakeTwinKeeps` | Tmk/src/mmap.c:114-119 | making a twin and putting the page on the dirty list keeps the invariant |
| `Nodes.AccessKeeps` | Tmk/src/mmap.c:95-127 | touching a page keeps the invariant; unless private it ends valid, a write leaves it with a twin and dirty if it had none, a read changes neither, and exactly the diffs of the page's notices are gained if it was not valid |
| `Nodes.ServeKeeps` | Tmk/src/diff.c:747-770 | answering for a diff, made from the twin if need be, keeps the invariant |
| `Processes.Process.constructor` | Tmk/src/Tmk.h:413-420 | a new process, as every run starts with it: pages private at their manager and empty elsewhere, and the invariant |
| `Processes.Process.CreateInterval` | Tmk/src/interval.c:172-243 | the update in place, for the live clock and for a saved one, which is advanced in place |
| `Processes.Process.Settle` | Tmk/src/interval.c:421-438 | the loop that runs while there is a twin goes round at most twice, twice exactly if the page is dirty, and never stamps an interval without a clock |
| `Processes.Process.NotePages` | Tmk/src/interval.c:403-441 | page by page, in any order, the outcome is the same as for the set of pages at once |
| `Processes.Process.LearnInterval` | Tmk/src/interval.c:355-452 | enqueueing first and closing the open interval on the way comes to the same as closing it first |
| `Processes.Process.IncorporateAll` | Tmk/src/interval.c:324-456 | the loop over a message computes the specification and keeps the invariant |
| `Processes.Process.WriteRange` | Tmk/src/mmap.c:95-127 | every page of the range that is not private ends valid with a twin, pages without one before become dirty, nothing else changes, and the outcome is that of the system's write fault on each page in turn |
| `Processes.AcceptMessage` | Tmk/src/interval.c:306-319 | every message the system sends is made of known intervals and next ones, as the loop needs |
| `SystemSteps.CloseKeeps` | Tmk/src/interval.c:172-243 | closing an interval anywhere, at any time, keeps the invariant of the whole system |
| `SystemSteps.RequestKeeps` | Tmk/src/lock.c:193-222 | so does asking for a lock with the current clock |
| `SystemSteps.PostKeeps` | Tmk/src/lock.c:332-340 | so does a grant, with `inverse_time_` set to the granting process's own time |
| `SystemSteps.ReceiveKeeps` | Tmk/src/lock.c:300-305 | so does incorporating a grant or a barrier reply |
| `SystemSteps.RegisterKeeps` | Tmk/src/barrier.c:186-191 | so does arriving at a barrier with the intervals the manager is not known to have |
| `SystemSteps.CollectKeeps` | Tmk/src/barrier.c:142-161 | so does the manager's taking of an arrival, in any order, before or after others |
| `SystemSteps.ReplyKeeps` | Tmk/src/barrier.c:163-180 | so do the manager's replies |
| `SystemSteps.TellAllKeeps` | Tmk/src/barrier.c:233-238 | so does setting `inverse_time_` for everybody after a barrier |
| `SystemSteps.FaultKeeps` | Tmk/src/mmap.c:95-127 | a read or write fault for which all that is asked can be given keeps the invariant of the whole system, with what the page's manager and the servers of the diffs do for it |
| `SystemSteps.TouchKeeps` | Tmk/src/diff.c:267-385 | so does touching any page with the requests that its pending notices are packed into, whether they can be answered or not |
| `SystemSteps.TouchEffect` | Tmk/src/mmap.c:95-127 | the whole effect of a read or write that does not fail: at the process the page is valid, a write leaves a twin and a dirty page if there was no twin, a read neither; every other process gains exactly the diffs it is asked for, loses the twin such a diff is made from, and its page only stops being private |
| `SystemSteps.AskIsAnswered` | Tmk/src/diff.c:755-770 | a process with a later interval of its own on a page knows every notice that interval had seen, and has its diff or the twin it is made from |
| `SystemSteps.AnsweredIff` | Tmk/src/diff.c:755-770 | a process can answer for a notice known to whoever asks exactly if it is the notice's maker or has the diff |
| `Runs.StepKeeps` | Tmk/src/interval.c:172-456 | every step of every kind, with whatever requests the packing makes, keeps the invariant of the whole system |
| `Causality.ClosedIff` | Tmk/src/barrier.c:142-161 | a process's clock is causally closed exactly if it has seen what the newest interval it holds of each process had seen |
| `Causality.DepartClosed` | Tmk/src/barrier.c:160-173 | when all arrivals are collected the manager's clock is closed |
| `Causality.StepCausal` | Tmk/src/lock.c:332-340 | a step from a state with closed stamps and clocks keeps them closed exactly if it is not a grant by a collecting manager whose clock is not closed |
| `Causality.CausalIffCareful` | Tmk/src/barrier.c:142-161 | closure holds in all states of a run exactly if the run has no such grant |
| `Causality.StampsCausal` | Tmk/src/interval.c:206-208 | the stamps of all intervals are then causally closed, and each interval's own component was new |
| `LateGrant.NotAlwaysCausal` | Tmk/src/barrier.c:142-161 | a run of four processes, all locks starting at process 0, in which a collecting manager grants a lock and the stamps are not causally closed |
| `LateGrant.FetchCanFail` | Tmk/src/diff.c:755-765 | the run goes on to a fetch that asks a process for a diff it has neither got nor a twin for |
| `LateGrant.PageCanBeLost` | Tmk/src/repo.c:252-290 | the run goes on to a collection after which the manager that everybody names has no copy |
| `ManagerChoice.BestIsMaximal` | Tmk/src/repo.c:107-140 | the scan ends with no notice only if there is none, else with one that no other is above |
| `ManagerChoice.UpdateManager` | Tmk/src/repo.c:107-140 | the nested loops compute that scan |
| `ManagerChoice.ScanOthers` | Tmk/src/repo.c:258-272 | the loop decides whether nobody else's newest notice has seen the process's own |
| `Collection.SameChoice` | Tmk/src/repo.c:107-140 | when all have left a barrier and written nothing since, which `Barriers.BarrierIsQuiet` derives, they see the same newest notices and pick the same manager |
| `Collection.ChosenKeeps` | Tmk/src/repo.c:252-293 | under causal stamps the process picked has a valid copy or a notice nobody had seen, so it does not take the discard branch |
| `Collection.TwinIsChosen` | Tmk/src/repo.c:243-251 | under causal stamps a process with a valid copy and a twin is the one picked |
| `Collection.OthersDiscard` | Tmk/src/repo.c:243-293 | whatever the stamps, everybody else then ends without a copy |
| `Collection.SweepIff` | Tmk/src/repo.c:239-311 | whatever the stamps, a collection leaves the whole system consistent exactly if every manager that is named has a valid copy or a notice nobody had seen; stamps and clocks are then closed, so runs go on after it |
| `Collection.SweepStates` | Tmk/src/repo.c:239-311 | what becomes of each copy of each page whatever the stamps, in terms of notices and diffs, and that all records are dropped |
| `Collection.CausalSweeps` | Tmk/src/repo.c:239-297 | under causal stamps every manager keeps a copy and every fetch of the collection can be answered |
| `Collection.KeepersUndisturbed` | Tmk/src/repo.c:275-297 | what a process asks for to keep an invalid copy can be given whichever other processes have already freed their twins and dropped their copies, if it could at the start |
| `Guarantees.TwinCoverage` | Tmk/src/interval.c:419-440 | in every reachable state a page with a twin is valid and is dirty or has an undiffed newest own notice, never both; without a twin it is not dirty and all own notices have diffs |
| `Guarantees.ClockToStampWith` | Tmk/src/barrier.c:131-152 | where a message is incorporated without a clock, or with the live one, no page is dirty; with a saved clock and a dirty page, the saved own time is current |
| `Guarantees.KnowledgeIsPrefix` | Tmk/src/interval.c:355-376 | in every reachable state what a process knows of another is a prefix of the other's list, as long as its clock says, numbered without a gap |
| `Guarantees.InverseNeverAhead` | Tmk/src/interval.c:447-448 | in every reachable state `inverse_time_` is at most what the other process knows or is being sent |
| `InverseTimes.InverseBetween` | Tmk/src/interval.c:444-448 | in every reachable state `inverse_time_` is at least what any known interval of the other process had seen, and at most what that process has been told |
| `Guarantees.GrantTells` | Tmk/src/lock.c:332-340 | after a grant `inverse_time_` is exactly what the other process is being told, and nobody else's records change |
| `Guarantees.ArrivalTells` | Tmk/src/barrier.c:186-191 | an arrival closes the open interval and sends exactly the own intervals that the manager is not known to have |
| `Guarantees.DiffsCanBeServed` | Tmk/src/diff.c:755-770 | in every carefully reachable state no request has failed, and for every page that is not valid the sorted pending notices are a linear extension, the packed requests ask for all of them, and every process asked can answer |
| `Guarantees.RequestFailsIff` | Tmk/src/diff.c:755-770 | in every reachable state a read or write fails exactly if the page must be fetched and some diff is asked of a process that is not its maker and has not got it; never where having seen is transitive among the pending notices |
| `Guarantees.MessagesFit` | Tmk/src/barrier.c:259-265 | in every reachable state without a failure whoever waits for a message that has come can take it |
| `Guarantees.RunsAreCausal` | Tmk/src/interval.c:206-208 | in every run without a grant from a clock that is not closed, stamps and clocks are causally closed |
| `Barriers.BarrierReplies` | Tmk/src/barrier.c:160-183 | the manager replies with a clock that has each process's own time on arrival |
| `Barriers.BarrierLeaves` | Tmk/src/barrier.c:231-238 | a process leaves with exactly that clock, exactly those intervals, and `inverse_time_` at its own time |
| `Barriers.BarrierAgreement` | Tmk/src/barrier.c:131-239 | all who have left have the same clock and the same intervals |
| `Barriers.SlowLeaver` | Tmk/src/barrier.c:215-239 | however late a process leaves, and whatever the others do before, it leaves with the clock and the intervals the manager had when it replied |
| `Barriers.BarrierIsQuiet` | Tmk/src/barrier.c:131-239 | when after the replies everybody has left and done nothing else, all hold the same intervals and no page is dirty, as a collection needs |
| `Barriers.BarrierCompletes` | Tmk/src/barrier.c:131-239 | once everybody has arrived, however many arrivals have been taken, there is a run by which all get through and run on with the same intervals |
| `Barriers.GrantCompletes` | Tmk/src/lock.c:300-305 | whoever grants a request, the requester can take the grant and then runs |
| `Guarantees.NoPageIsLost` | Tmk/src/repo.c:239-297 | in any reachable state, all processes name the same manager for a page, and it has a copy after the collection exactly if its copy is valid or nobody's newest notice had seen its own; in a carefully reachable state that holds and no fetch of the collection fails |
| `Guarantees.PrivateIsExclusive` | Tmk/src/repo.c:243-250 | in any reachable state, when a page becomes private nobody else ends with a copy, and the process is the manager if the manager keeps a copy |
| `Guarantees.CollectedCopy` | Tmk/src/repo.c:239-293 | in any reachable state a copy is private after a collection exactly if it was, or is valid with an own notice whose diff nobody has; valid exactly if it is and all those have diffs, or is invalid and the process has a notice no other process's had seen; else empty |
| `Guarantees.CollectionFailsIff` | Tmk/src/repo.c:275-283 | in any reachable state a collection fails exactly if a process that keeps an invalid copy asks for a diff of a process that is not its maker and has not got it |
| `Guarantees.DiscardFindsManager` | Tmk/src/repo.c:285-290 | in any reachable state the error exit of the discard branch is unreachable |
| `PageStacks.SortedArePending` | Tmk/src/diff.c:283-307 | what the sort takes, stopping in each stack at the first notice with a diff, is exactly the notices without one |
| `Requests.RequestsAreLegal` | Tmk/src/diff.c:278-385 | where having seen is transitive among the pending notices, each is asked of a process that wrote the page later, having seen it |
| `Requests.RequestsAreProper` | Tmk/src/diff.c:278-385 | whatever the stamps, the packed requests ask for every pending diff, each of another process, and for nothing that is not noticed |
| `Fetches.PageCanBeFetched` | Tmk/src/diff.c:267-385 | with causally closed stamps the pending notices of any page sort into a linear extension and every diff the packed requests ask for can be given |
| `ReleaseConsistency.AcquirerKnows` | Tmk/src/lock.c:328-442 | a process that writes a page, releases a lock and later grants it: whoever takes the grant has seen all the process had seen at its release and, unless the process had the only copy, knows a notice whose diff nobody had when the write was done; so a valid copy has that diff |
| `ReleaseConsistency.WriteIsTracked` | Tmk/src/mmap.c:113-119 | a write that does not fail leaves the page with a twin, or nobody else has a copy |
| `ReleaseConsistency.GrantCovers` | Tmk/src/lock.c:332-333 | closing an interval at the grant unless one was closed since the release is enough for that |
| `ReleaseConsistency.GrantBrings` | Tmk/src/lock.c:193-222 | whenever a lock is granted, exactly the intervals are sent that the granting process has and the other lacked when it asked |
| `RetryStream.RetryKeeps` | Practica03/grpc-go/stream.go:731-752 | a retry that succeeds leaves an attempt in step with the buffer; one that gives up commits; one cut short leaves buffer and cleanups alone |
| `RetryStream.AbortedInStep` | Practica03/grpc-go/stream.go:741-746 | after a retry cut short the attempt is in step with the buffer exactly if no new attempt got past the first operation |
| `RetryStream.AttemptCanFallBehind` | Practica03/grpc-go/stream.go:741-751 | a run in which a retry cut short leaves the stream uncommitted on an attempt that lacks a buffered operation |
| `RetryStream.StepKeeps` | Practica03/grpc-go/stream.go:764-808 | every step of the sender and of any number of receivers keeps the invariant: limits, the log of the current attempt against the calls that came back, each cleanup accounted for once |
| `RetryStream.ReplayIsExact` | Practica03/grpc-go/stream.go:764-808 | in every run, before and after commit, the current attempt has completed exactly the operations whose calls came back with success, in order, and at most the one in flight, if and only if the last retry that changed the attempt succeeded; until commit those are the replay buffer; retries stay below the configured attempts, tokens within bounds |
| `RetryStream.CommitIsFinal` | Practica03/grpc-go/stream.go:611-622 | once committed the attempt never changes and the buffer stays empty |
| `RetryStream.CleanupsOnce` | Practica03/grpc-go/stream.go:873-885 | once committed and with no send under way every cleanup has run exactly once, except the missed ones |
| `RetryStream.AllCleanedIff` | Practica03/grpc-go/stream.go:873-877 | in every run, at commit with no send under way, every cleanup has run exactly once if and only if no operation with a cleanup succeeded on the current attempt after the commit |
| `RetryStream.CleanupCanBeMissed` | Practica03/grpc-go/stream.go:932-943 | a run in which that happens |
| `RetryStream.NilNotCalled` | Practica03/grpc-go/stream.go:878-883 | no run in which operations without a cleanup add nothing to the buffer calls a missing cleanup, unless the limit is negative |
| `RetryStream.NilCalled` | Practica03/grpc-go/stream.go:878-883 | with a negative limit opening the stream does |
| `RetryRuns.LogIsCompleted` | Practica03/grpc-go/stream.go:764-773 | the log of an attempt grows by exactly the operations that the steps of the run complete on it, in order, so after a commit it is the log at the commit and what succeeded since |
| `RetryRuns.CallsComeBack` | Practica03/grpc-go/stream.go:764-808 | in every run calls come back once each, in the order made, with success exactly if the operation succeeded on the current attempt; the attempt has completed exactly those |
| `RetryRuns.CommittedIff` | Practica03/grpc-go/stream.go:611-622 | a stream is committed exactly if a receive succeeded on the current attempt, an operation did not fit, a retry gave up, no attempt could be made for the first operation, or it was finished |
| `RetryRuns.FinishedIff` | Practica03/grpc-go/stream.go:779-783 | a stream is finished exactly if it was told so or no attempt could be made for its first operation |
| `RetryRuns.DeliveryCommits` | Practica03/grpc-go/stream.go:797-799 | once a receive that began and succeeded on an attempt comes back while it is current, the stream stays committed to that attempt |
| `RetryRuns.ReceiveComesBack` | Practica03/grpc-go/stream.go:785-806 | a receive is over exactly if it ran on a committed stream, or on the attempt still current with success or with a retry that did not succeed; else it starts again |
| `RetryRuns.RetriesAreCounted` | Practica03/grpc-go/stream.go:696-723 | in every run the retry policy grants at most one attempt less than configured over all calls, counted from the rounds of the run; attempts and the first-attempt flag are counted likewise |
| `RetryRuns.TokensAreCounted` | Practica03/grpc-go/clientconn.go:1580-1603 | in every run the tokens are the maximum less the counted failures plus the credits, clamped on the way |
| `RetryRuns.RetriesAreThrottled` | Practica03/grpc-go/clientconn.go:1580-1591 | while nothing succeeds fewer retries are granted than half the maximum of tokens |
| `RetryRuns.LastRoundEnds` | Practica03/grpc-go/stream.go:731-752 | the last round says how a retry ends and whether it commits; every other made an attempt that failed in the buffer |
| `RetryClient.ClientStream.constructor` | Practica03/grpc-go/stream.go:556-576 | a new stream: no attempt, nothing buffered, all tokens |
| `RetryClient.ClientStream.CommitAttempt` | Practica03/grpc-go/stream.go:611-622 | the loop runs each buffered cleanup once and drops the buffer |
| `RetryClient.ClientStream.BufferForRetry` | Practica03/grpc-go/stream.go:873-885 | keeps the operation, or commits and cleans it up if there is no room |
| `RetryClient.ClientStream.ReplayBuffer` | Practica03/grpc-go/stream.go:864-871 | the loop replays the buffer in order up to the first failure; the first operation makes the attempt current |
| `RetryClient.ClientStream.Decide` | Practica03/grpc-go/stream.go:696-723 | what a round costs in tokens and retries, which `RetryRuns.RetriesAreCounted` and `RetryRuns.TokensAreCounted` count over runs |
| `RetryClient.ClientStream.RetryLocked` | Practica03/grpc-go/stream.go:731-752 | the retry loop computes the specification |
| `RetryClient.ClientStream.TakeToken` | Practica03/grpc-go/clientconn.go:1580-1591 | one token less but never below none; retrying is held back at half the maximum or less |
| `RetryClient.ClientStream.SuccessfulRPC` | Practica03/grpc-go/clientconn.go:1593-1603 | tokens grow by the ratio, never above the maximum |
| `HandlerQuota.QuotaHolds` | Practica03/grpc-go/server.go:2181-2208 | in every interleaving the handlers running are those let in or woken less those that released, at most `n`; an acquirer is let in at once exactly if fewer than `n` run; the counter is at least -1, at most one wake-up is pending so no release blocks, and a blocked acquirer has one coming once any handler has released |
| `HandlerQuota.AtomicSemaphore.constructor` | Practica03/grpc-go/server.go:2204-2208 | the quota starts full, with an empty channel |
| `HandlerQuota.AtomicSemaphore.Down` | Practica03/grpc-go/server.go:2186-2188 | the first half of an acquire |
| `HandlerQuota.AtomicSemaphore.AwaitWake` | Practica03/grpc-go/server.go:2188-2190 | the second half of an acquire that blocked |
| `HandlerQuota.AtomicSemaphore.Up` | Practica03/grpc-go/server.go:2193-2198 | the first half of a release |
| `HandlerQuota.AtomicSemaphore.SendWake` | Practica03/grpc-go/server.go:2198-2201 | the second half of a release finds room in the channel |
| `WorkSplit.SlicesTile` | codigo/suma_tmk.c:63-69 | for every length and number of processes the slices tile the array and their sizes differ by at most one |
| `WorkSplit.OneSlice` | codigo/suma_tmk.c:63-69 | every place is in exactly one slice |
| `WorkSplit.LocalSum` | codigo/suma_tmk.c:84-87 | the loop computes the sum of a slice |
| `WorkSplit.AddShares` | codigo/suma_tmk.c:84-93 | the additions in a given order of lock holders |
| `WorkSplit.AnyOrder` | codigo/suma_tmk.c:84-93 | in whatever order the processes get the lock the total is the sum of the array |

## Left out

- Retransmission, time-outs, sequence numbers of requests and the duplicate handlers: delivery is reliable and once.
- Condition variables (`Tmk/src/lock.c:448-939`), signal masks, sockets, `mprotect` and `mmap` themselves, the pthreads variants.
- The contents of pages in `Systems`: what a fetch leaves in a page is in `DiffRequest`, for one page at a time.
- Interleavings inside a fetch: the servers answer in the same step in which the page is brought up to date.
- The barrier's bit mask and reply buffer, and the loops of `Tmk_repo` over the page range, are modelled on values (who has arrived and been collected; what becomes of each page), not as updates in place.
- Two barriers with the same manager are not told apart; the flag that asks for a collection is not modelled, a collection may follow any barrier that everybody has left.
- What the code does after a process has been asked for a diff it cannot give, or after a collection in which a page's manager has discarded its copy: runs end there.
- 16-bit wrap-around of vector times: times are unbounded.
- The heap of intervals and write notices (`heap_alloc` in `Tmk/src/interval.c`), which repeats the bump allocation of `DiffCodec.Create`.
- The Empty state's page request is answered by the page's manager at once; the page's contents in that reply are not modelled.
- Backoff times, server pushback values and status codes of a gRPC retry: a round of the retry loop is given as an outcome that the rules allow.
- `sched.c`, `distribute.c`, `exit.c`, `mpl.c`, `open_*.c`, `fort_if.c`, `ll.c`, the AIX-only merge sort of `page.c`, the rest of grpc-go, and the other exercises of the repository.
