# Verified models of an Android device tree

This project models the parts of the device tree whose correctness is not visible from a single
function body, and proves what each is for. There are six components.

**Camera callback worker** (`CallbackWorkerThread.dfy`, `CameraProtocol.dfy`, `CameraTheorems.dfy`,
`CameraProgress.dfy`, `CameraBlocking.dfy`, `CameraClosing.dfy`, `CameraOrigins.dfy`, `CameraSequential.dfy`). HAL threads post callbacks, client threads block, clear and
call the vendor, and one worker executes. `CallbackWorkerThread` holds the queue as a class with the bodies
of the critical sections and of the worker loop. `CameraProtocol` interleaves any number of threads with the
worker, one scheduling point at a time, with history fields that record what was enqueued, taken, dropped,
deleted and called. One invariant is kept by every step (`StepInv`); the theorems are about every reachable
state or every run. `CameraSequential` shows that the interleaved worker, left alone, makes exactly the calls
the loop method computes.

**Camera parameters** (`CText.dfy`, `SizeText.dfy`, `ParameterMap.dfy`, `CameraParameters.dfy`,
`CameraFixups.dfy`). The text form, the sorted map, `strtol` in base 0 and base 10 with sign, saturation and
the cast to 32 bits, for both sizes of `long`, and the two functions that rewrite the strings between client
and vendor.

**IRQ balancer** (`IrqSort.dfy`, `IrqAllot.dfy`, `IrqWatchdog.dfy`, `IrqScan.dfy`). Utilisation in wrapping
64-bit arithmetic, the early-exit sort, the allotment by the square-root formula, and the two-pass scan.

**Bluetooth vendor interface** (`Bluetooth.dfy`). The wake line with its watchdog timer, and the
interception of the answers to the vendor library's own commands.

**Power profiles** (`PowerProfiles.dfy`, `PowerInheritance.dfy`, `PowerPaths.dfy`, `PowerTable.dfy`). The loader
that copies a parent and overlays the profile's own XML, against a lookup along the chain of documents, with
every path, type and default written out.

**Property framing** (`PropertyFraming.dfy`). The scatter/gather writer and the two message formats.

## What the proofs found

The code is modelled as it stands. Where it departs from what its comments or names suggest, the exact
condition is proved.

- `camera2_cancel_auto_focus` can return with `BlockCbs` still 1. Whatever other threads do in between, it
  does so exactly when it returned at its time guard, which is active for 500 ms after an `auto_focus`
  returned, and no other thread lowered `BlockCbs` in between without it being raised again
  (`CancelReturnsBlockedIff`, `CancelAfterFocusIff`; `StopPreviewLiftsTheBlock` shows that the last proviso
  is needed). Until some thread lowers it, the user then sees only what was already under way
  (`SilentUntilUnblocked`).
- `ClearCallbacks` drops an EXIT message like any other, and `ExitThread` then waits in `join` for ever. A
  close in its `join` can return exactly if its EXIT was not dropped and no thread holds the mutex to clear the
  queue with the EXIT in it (`CloseReturnsIff`). An interleaving that makes it hang is given, with a
  `cancel_auto_focus` that begins before the close and returns at its guard (`CloseAgainstCancelHangs`).
- A profile that extends another ends up with the section flags of the root of the chain; what the documents
  in between say about their sections is lost (`FlagsAreTheRoots`). Extending a profile that is loaded later
  switches a profile off (`LaterParentSwitchesOff`).
- The utilisation can exceed 100, and in two ways: idle time counted back by a 101st of the busy time or more,
  or busy time counted back, which wraps to a huge difference. `UtilWithinHundred` gives the exact condition
  for every two readings and `UtilWithinHundredIff` spells it out by sign for moves that do not overflow;
  `FallingIdleExceedsHundred` and `FallingBusyExceedsHundred` are the witnesses, and `RunBoundedIff` and
  `RunSoundIff` carry the two conditions over every run of the loop.
- Above 100 a core's share can be negative (`NegativeIff`), and beyond 2^31 - 1 the cast to `int` changes the
  utilisation or makes it negative, which has no root. Balancing binds every IRQ exactly once if and only if
  none of this happens to a core that others follow, at the number of IRQs then left (`BalancesIff`, for every
  utilisation; `WalkIff`). Otherwise the walk reads before the IRQ list (`TwoHundredLeavesArray`), takes the
  root of a negative number (`FallingBusyHasNoRoot`), or binds an IRQ twice (`CastBindsTwice`).
- The second pass of the IRQ scan runs past the counted lines exactly when more of them are blacklisted than
  the blacklist has entries, which needs repeated lines (`ScanSucceedsIff`, `DistinctLinesAreListed`). Where
  no numbers follow the counted lines it never ends exactly if the wanted lines leave slots over and the last
  line is blacklisted or malloc left a blacklisted number in one of those slots (`FillHangsIff`;
  `RepeatedLineHangs` and `LeftoverHangs` are the witnesses). For distinct lines no IRQ is lost exactly if the
  blacklist is a duplicate-free part of them (`NothingIsLostIff`).
- With two online cores left, an idle one takes every remaining IRQ (`IdleCoreBeforeLastTakesAll`).
- `0x10` reads as 16 through `getInt` and as the size 0 by 10 through the size parser
  (`HexReadsAsIntNotAsSize`).
- A property request determines its key and value exactly when both are shorter than 2^32 characters
  (`RequestIsFaithfulIff`). A short write is not noticed in the current protocol, and what was sent then
  cannot be read (`SuccessCarriesTheProperty`).

## Model

| member | source | states |
|---|---|---|
| CallbackWorker.CallbackWorkerThread.Push | camera/CallbackWorkerThread.cpp:103-106 | the three producers append one message at the end of the queue |
| CallbackWorker.CallbackWorkerThread.ClearCallbacks | camera/CallbackWorkerThread.cpp:122-140 | every queued message, of whatever kind, is deleted once, in order, and the queue is empty |
| CallbackWorker.CallbackWorkerThread.Handle | camera/CallbackWorkerThread.cpp:161-221 | a message is deleted; one call is made exactly for a callback message under 5 ms old whose pointer is set, a notification through the notify pointer and data through the data pointer; an update replaces both pointers |
| CallbackWorker.CallbackWorkerThread.Process | camera/CallbackWorkerThread.cpp:142-246 | the loop makes the calls of the queue up to the first EXIT, reports an exit exactly when one is queued, and deletes every message |
| CameraProtocol.OwnerDo | camera/CallbackWorkerThread.cpp:100-106 | an allocated message stays with its one producer until it is enqueued once |
| CameraProtocol.FreeAdvance | camera/CallbackWorkerThread.cpp:157-239 | the worker deletes each message it took once, and drains the rest once |
| CameraProtocol.DispatchEffect | camera/CallbackWorkerThread.cpp:163-221 | acting on a message makes at most one call, justified by the updates taken before it and by its age |
| CameraProtocol.StepInv | camera/CallbackWorkerThread.cpp:76-246 | every action of any thread or of the worker keeps the whole invariant: locking, wake-ups, queue history, calls, ownership, deletion, exit and device |
| CameraProtocol.RunInv | camera/CallbackWorkerThread.cpp:76-246 | the invariant holds after every run |
| CameraTheorems.CallsFollowEnqueueOrder | camera/CallbackWorkerThread.cpp:96-201 | user callbacks are made in enqueue order, each message at most once, with its own arguments and less than 5 ms after the time stamped on it |
| CameraTheorems.UpdateBefore | camera/CallbackWorkerThread.cpp:203-221 | a notification goes through the notify pointer, and data through the data pointer, of the last update this worker took before the call |
| CameraTheorems.CallUsesLatestSurvivingUpdate | camera/CallbackWorkerThread.cpp:109-221 | a notification goes through the notify pointer, and data through the data pointer, of the latest SetCallbacks enqueued before it, apart from those a clear dropped |
| CameraTheorems.OneOwner | camera/CallbackWorkerThread.cpp:96-239 | every allocated message is in exactly one of a producer, the queue, the worker's hand and the freed ones; none is deleted twice |
| CameraTheorems.LaterRun | camera/CallbackWorkerThread.cpp:142-246 | over any run the records only grow, and new calls concern only messages not yet acted upon |
| CameraTheorems.NothingClearedIsExecuted | camera/CallbackWorkerThread.cpp:122-159 | whatever is executed in any continuation was queued, is enqueued later, or is the one message the worker had dequeued; after a clear nothing is queued |
| CameraTheorems.BlockedStretch | camera/Camera2Wrapper.cpp:145-201 | while BlockCbs stays 1, the callbacks enqueued are at most the wrapper calls that were past their check when it began |
| CameraTheorems.DistinctExecutes | camera/CallbackWorkerThread.cpp:96-107 | callbacks made for distinct queue places are no more than the callbacks enqueued there |
| CameraTheorems.FewCallbacksWhileBlocked | camera/Camera2Wrapper.cpp:275-284 | while BlockCbs stays 1, the user sees at most one callback in the worker's hand, those queued (none after a clear) and one for each wrapper call past its check |
| CameraProgress.CallbackRunsUnlocked | camera/CallbackWorkerThread.cpp:28-38 | no reachable state has the worker in user code holding the mutex, or asleep and un-notified with work in the queue |
| CameraProgress.HolderAdvances | camera/CallbackWorkerThread.cpp:84-159 | the mutex holder can always take its next step, which brings it nearer to releasing |
| CameraProgress.OthersDoNotDelayHolder | camera/CallbackWorkerThread.cpp:84-159 | no step of another thread takes the mutex away or delays its release |
| CameraProgress.MutexComesFree | camera/CallbackWorkerThread.cpp:84-159 | at most three steps of the holder free the mutex, none of them the return of a user callback |
| CameraProgress.CriticalSectionCompletes | camera/CallbackWorkerThread.cpp:28-38 | from every reachable state an enqueue or clear can complete within seven steps, without waiting for user code |
| CameraProgress.CancelAfterFocus | camera/Camera2Wrapper.cpp:348-399 | the witness: a focus and a cancel that nobody disturbs end with callbacks blocked when less than 500 ms apart, and unblocked otherwise |
| CameraBlocking.BlockedFollowsRun | camera/Camera2Wrapper.cpp:275-284 | after any run of any threads BlockCbs is 1 if and only if the last step that changed it was the start of a stop_preview or cancel_auto_focus |
| CameraBlocking.CancelEnds | camera/Camera2Wrapper.cpp:370-399 | a cancel returns by unblocking or at its guard, and at the guard exactly when that is active |
| CameraBlocking.CancelReturnsBlockedIff | camera/Camera2Wrapper.cpp:370-399 | whatever other threads do while it runs, a cancel returns with BlockCbs at 1 if and only if it returned at its active guard and nobody lowered BlockCbs in between without its being raised again |
| CameraBlocking.StopPreviewLiftsTheBlock | camera/Camera2Wrapper.cpp:268-285 | a stop_preview that ends meanwhile makes a guarded cancel return with BlockCbs at 0 |
| CameraBlocking.GuardStays | camera/Camera2Wrapper.cpp:350-368 | over any run the guard changes only when the vendor's auto_focus returns |
| CameraBlocking.CancelAfterFocusIff | camera/Camera2Wrapper.cpp:348-399 | over all interleavings, after the latest auto_focus returned, a cancel leaves callbacks blocked if and only if it read the clock within 500 ms, returned there, and nobody lowered BlockCbs for good |
| CameraBlocking.SilentUntilUnblocked | camera/Camera2Wrapper.cpp:145-201 | from any state with BlockCbs at 1 and until some thread lowers it, the user sees only the callback in hand, those queued and those of wrapper calls past their check |
| CameraBlocking.WhoLowers | camera/Camera2Wrapper.cpp:283-284 | only a stop_preview, a cancel past its guard, or an open lowers BlockCbs |
| CameraClosing.EndingRun | camera/CallbackWorkerThread.cpp:223-239 | while an EXIT is pending and nobody clears, each worker step is paid for by a rank that no other thread raises |
| CameraClosing.ExitStopsWorker | camera/CallbackWorkerThread.cpp:76-94 | the worker returns within a bounded number of its own steps once an EXIT is queued and not cleared |
| CameraClosing.ExitTakesOnlyWhatIsAhead | camera/CallbackWorkerThread.cpp:142-239 | it takes exactly the messages ahead of the EXIT and the EXIT, and leaves the queue empty |
| CameraClosing.EndingIsNeverStuck | camera/CallbackWorkerThread.cpp:148-239 | until the worker has returned it or the mutex holder can move, and unless the holder is about to clear the queue with the EXIT in it, some move brings the return nearer |
| CameraClosing.JoinWaitsForItsExit | camera/CallbackWorkerThread.cpp:76-94 | a thread in join waits for an EXIT that is on its way, unless a clear dropped it; then the worker has not exited |
| CameraClosing.ClosingHangsOnceExitIsCleared | camera/CallbackWorkerThread.cpp:122-140 | once its EXIT is dropped a close never returns, in any continuation |
| CameraClosing.EndingAdvances | camera/CallbackWorkerThread.cpp:142-239 | short of the worker's return, and of a thread about to clear the EXIT, some step lowers a finite measure and does not lose the EXIT |
| CameraClosing.DoomedNeverReturns | camera/CallbackWorkerThread.cpp:122-140 | once a thread holds the mutex to clear the queue with the EXIT in it, the close never returns |
| CameraClosing.CloseCanReturn | camera/CallbackWorkerThread.cpp:76-94 | otherwise a run exists that brings the close to its end |
| CameraClosing.CloseReturnsIff | camera/CallbackWorkerThread.cpp:76-94 | a thread in join can return if and only if its EXIT was not dropped and no thread holds the mutex to clear the queue with the EXIT in it |
| CameraClosing.ClearDropsExit | camera/CallbackWorkerThread.cpp:122-140 | a thread that clears before the worker takes the EXIT drops it |
| CameraClosing.OpeningReaches | camera/Camera2Wrapper.cpp:529-544 | for any number of threads, opening reaches a state with a worker, every thread idle and the device lock free, as the hanging close needs |
| CameraClosing.CloseAgainstCancelHangs | camera/Camera2Wrapper.cpp:370-517 | from every reachable open and idle device: after a focus, a cancel that began before a close and clears after the close has pushed its EXIT returns at its guard, and the close waits for ever in every continuation |
| CameraOrigins.MessagesComeFromCalls | camera/Camera2Wrapper.cpp:147-225 | over every run, each message enqueued has the arguments and the time of a wrapper call, the two pointers of a set_callbacks, or is the EXIT of a close of that run |
| CameraOrigins.CallsComeFromWrappers | camera/Camera2Wrapper.cpp:147-201 | the user is only called with arguments that some wrapper call was given |
| CameraOrigins.WrapperPushes | camera/Camera2Wrapper.cpp:147-201 | a wrapper call that is not blocked can put its message, stamped, at the end of the queue |
| CameraOrigins.BlockedWrapperReturns | camera/Camera2Wrapper.cpp:150-154 | a blocked wrapper call leaves no trace |
| CameraOrigins.SetCallbacksPushes | camera/Camera2Wrapper.cpp:203-225 | set_callbacks enqueues its two pointers and then calls the vendor |
| CameraOrigins.StopPreviewRuns | camera/Camera2Wrapper.cpp:268-285 | stop_preview blocks, clears, calls the vendor and unblocks, in this order, and can do so |
| CameraSequential.NothingBehindExit | camera/CallbackWorkerThread.cpp:223-239 | messages queued behind an EXIT are never delivered |
| CameraSequential.DeliveryResumes | camera/CallbackWorkerThread.cpp:142-221 | delivery can pause between messages and resume with the pointers installed so far |
| CameraSequential.InstalledAllIs | camera/CallbackWorkerThread.cpp:203-221 | the pointers after a queue are those of its last update, or the ones before it |
| CameraSequential.DeliveredAt | camera/CallbackWorkerThread.cpp:163-201 | in its place in the queue, a callback message under 5 ms old whose pointer of its kind is set at its turn is called exactly once, with that pointer, and no other message is |
| CameraSequential.HandlesFront | camera/CallbackWorkerThread.cpp:148-201 | the interleaved worker alone handles the front message as the loop does |
| CameraSequential.WorkerAloneDelivers | camera/CallbackWorkerThread.cpp:142-246 | the interleaved worker alone makes exactly the calls of the loop method, for every queue, clock and pointers |
| CText.ToInt32Wraps | camera/CameraParameters.cpp:307-315 | the cast from long keeps the number modulo 2^32 and lands in 32 bits |
| CText.NumberOfDecimal | camera/CameraParameters.cpp:259-264 | decimal digits read back as the number they print |
| CText.DecimalHasNoLeadingZero | camera/CameraParameters.cpp:259-287 | a printed positive number does not start with the octal prefix |
| CText.PrintIntFits | camera/CameraParameters.cpp:259-264 | every 32-bit int prints within the 16-byte buffer |
| CText.StrtolReadsAny | camera/CameraParameters.cpp:302-325 | strtol on the decimal text of any number gives it held between the least and the greatest long, and ends behind it |
| CText.StrtolSkipsSpace | camera/CameraParameters.cpp:302-325 | white space and a plus sign in front make no difference |
| CText.NoDigitsNoAdvance | camera/CameraParameters.cpp:302-325 | with no digit where the number should be, strtol gives 0 and does not advance |
| CText.StrtolAutoReadsOctal | camera/CameraParameters.cpp:281-287 | in base 0 a text with a leading 0 is read as octal, for every number |
| CText.StrtolAutoReadsHex | camera/CameraParameters.cpp:281-287 | in base 0 a text with 0x or 0X is read as hexadecimal, for every number |
| CText.StrtolReadsPrinted | camera/CameraParameters.cpp:302-325 | strtol in base 10 reads back every printed 32-bit int, anywhere in a text, and stops right behind it |
| CText.StrtolAutoReadsPrinted | camera/CameraParameters.cpp:259-287 | strtol in base 0 reads back every printed 32-bit int, although it takes prefixes |
| CText.StrtolInField | camera/CameraParameters.cpp:302-325 | a base-10 scan never looks past a comma: inside a field it reads what it reads in the field alone |
| SizeText.ParseSizesList | camera/CameraParameters.cpp:327-350 | on every text the loop ends and appends what the pointer walk reads, keeping what was in the list |
| SizeText.SizesAreGoodItems | camera/CameraParameters.cpp:327-350 | the pointer walk keeps exactly the comma-separated items before the first one that is not a pair and nothing else |
| SizeText.PairInField | camera/CameraParameters.cpp:302-325 | a pair is read inside its item, never across the comma behind it |
| SizeText.PrintSizeFits | camera/CameraParameters.cpp:352-357 | every pair of 32-bit ints prints within the 32-byte buffer |
| SizeText.PairReadsPrinted | camera/CameraParameters.cpp:302-357 | every pair of 32-bit ints, zero and negative included, reads back from its text to its end |
| SizeText.PairReadsAny | camera/CameraParameters.cpp:302-325 | numbers of any size in a pair are held to a long and cut to 32 bits |
| SizeText.PairNeedsDelimiter | camera/CameraParameters.cpp:302-325 | without the delimiter right behind the first number there is no pair |
| SizeText.ItemsOfJoined | camera/CameraParameters.cpp:327-350 | splitting comma-joined sizes gives the text of each |
| SizeText.SizesRoundTrip | camera/CameraParameters.cpp:302-357 | the list parser gives back every non-empty list of 32-bit pairs from its comma-joined text |
| ParameterMap.PutKeepsOrder | camera/CameraParameters.cpp:240-257 | adding or replacing an entry keeps the keys strictly increasing |
| ParameterMap.LessIff | camera/CameraParameters.cpp:240-257 | the order of the keys is that of strcmp: decided at the first place where they differ, or where the first ends |
| ParameterMap.LookupAfterPut | camera/CameraParameters.cpp:240-279 | adding an entry changes the lookup of its key and of no other |
| ParameterMap.SameLookupsSameMap | camera/CameraParameters.cpp:273-279 | a sorted map is determined by its lookups |
| ParameterMap.ParsedIsWellFormed | camera/CameraParameters.cpp:207-237 | from any text the parser builds a sorted map whose keys hold no = and whose values hold no ; |
| ParameterMap.PairsOfFlatten | camera/CameraParameters.cpp:187-205 | the printed text of a map contains its entries, in order |
| ParameterMap.UnflattenFlatten | camera/CameraParameters.cpp:187-237 | parsing undoes printing on every map that parsing or setting builds |
| ParameterMap.RewritingKeepsMeaning | camera/CameraParameters.cpp:187-237 | for every text, well formed or not, printing and parsing its map again gives the same map |
| ParameterMap.ParsedTakesLastValue | camera/CameraParameters.cpp:207-237 | a key's value is the one written last for it in the text |
| ParameterMap.PairsBeforeJunk | camera/CameraParameters.cpp:214-218 | text without = behind the last pair is ignored |
| ParameterMap.TextExample | camera/CameraParameters.cpp:187-237 | the text of two entries written out, and how a text is read that repeats a key, is out of order and ends in other text |
| CameraParameters.Parameters.Flatten | camera/CameraParameters.cpp:187-205 | the text printed by the loop parses back to the map |
| CameraParameters.Parameters.Unflatten | camera/CameraParameters.cpp:207-237 | the pointer loop ends on every text and builds the map of its pairs, discarding the old one |
| CameraParameters.Parameters.Set | camera/CameraParameters.cpp:240-257 | the entry is added or replaced if neither string holds = or ;, otherwise nothing changes |
| CameraParameters.Parameters.SetInt | camera/CameraParameters.cpp:259-264 | the decimal text of the int is set, and its buffer is large enough |
| CameraParameters.Parameters.Get | camera/CameraParameters.cpp:273-279 | a missing and an empty value both read as missing |
| CameraParameters.Parameters.GetInt | camera/CameraParameters.cpp:281-287 | the int of the text in base 0, or -1 if there is none |
| CameraParameters.Parameters.SetPreviewSize | camera/CameraParameters.cpp:352-357 | the width, x and the height are set under preview-size, and the buffer is large enough |
| CameraParameters.Parameters.GetPreviewSize | camera/CameraParameters.cpp:359-366 | the pair of the text under preview-size, or -1 by -1 if there is none |
| CameraParameters.Parameters.GetSupportedVideoSizes | camera/CameraParameters.cpp:397-401 | the sizes of the text under video-size-values are appended, none if there is no value |
| CameraParameters.GetIntAfterSetInt | camera/CameraParameters.cpp:259-287 | every 32-bit int set under any legal key is got back |
| CameraParameters.GetSizeAfterSetSize | camera/CameraParameters.cpp:352-366 | every pair of 32-bit ints set as preview size is got back |
| CameraParameters.SetKeepsOthers | camera/CameraParameters.cpp:240-257 | setting a key leaves every other key as it was, whether or not it is refused |
| CameraParameters.SetTakesIff | camera/CameraParameters.cpp:240-257 | a key or value with = or ; is refused without a trace, every other is taken |
| CameraParameters.MissingReads | camera/CameraParameters.cpp:273-287 | a missing or empty value reads as -1, as -1 by -1, and as no sizes |
| CameraParameters.MalformedSizeReads | camera/CameraParameters.cpp:359-366 | a number without x behind it reads as -1 by -1 |
| CameraParameters.PresentReads | camera/CameraParameters.cpp:281-350 | any other value is read as base 0 says, and as the good items of its list |
| CameraParameters.HexReadsAsIntNotAsSize | camera/CameraParameters.cpp:281-325 | 0x10 is 16 as an int and 0 by 10 as a pair |
| CameraFixups.VideoSizesText | camera/Camera2Wrapper.cpp:93-93 | the text the wrapper writes is the printed form of its fifteen sizes |
| CameraFixups.FixupSetParams | camera/Camera2Wrapper.cpp:106-128 | for every string of the client, the vendor gets a string with the same parameters |
| CameraFixups.FixupGetParams | camera/Camera2Wrapper.cpp:79-104 | for every string of the vendor, the client gets the same parameters with video-size-values replaced |
| CameraFixups.FixedParamsRead | camera/Camera2Wrapper.cpp:79-104 | the client then reads exactly the fifteen sizes in order, and every other parameter as the vendor sent it |
| CameraFixups.SetFixupIsIdempotent | camera/Camera2Wrapper.cpp:106-128 | fixing a fixed string changes no character |
| IrqSort.SortByUtil | hardware/irqbalance/irqbalance.c:165-177 | the shrinking early-exit sort ends and leaves the records ascending, records of equal utilisation in their old order |
| IrqSort.ArrangedPermutes | hardware/irqbalance/irqbalance.c:165-177 | the sort permutes whole records, so each core id stays with its own |
| IrqSort.ArrangedIsUnique | hardware/irqbalance/irqbalance.c:165-177 | only one arrangement meets the sort's contract |
| IrqAllot.CoversIsCeil | hardware/irqbalance/irqbalance.c:193-199 | an integer comparison decides the real inequality with the square root |
| IrqAllot.FormulaIsShare | hardware/irqbalance/irqbalance.c:193-201 | the ceil and sqrt formula equals an integer share for every utilisation, also above 100 |
| IrqAllot.NegativeIff | hardware/irqbalance/irqbalance.c:193-199 | the share is negative if and only if the utilisation is that far above 100 for the IRQs left and the cores that follow |
| IrqAllot.ShareInRange | hardware/irqbalance/irqbalance.c:193-201 | up to 100 the share lies between 0 and the IRQs left |
| IrqAllot.QuarterBusySharesHalf | hardware/irqbalance/irqbalance.c:193-199 | at a utilisation of 25 half of what is left is shared among the cores that follow, rounded up |
| IrqAllot.AllotmentPartitions | hardware/irqbalance/irqbalance.c:189-226 | from any point of the walk where nothing goes wrong, every IRQ left is bound once, in order, to an online core |
| IrqAllot.BelowZeroIsLost | hardware/irqbalance/irqbalance.c:189-219 | once the count of processed IRQs is below zero the walk never ends well, and it reads before the list unless a cast goes wrong |
| IrqAllot.BindsEnough | hardware/irqbalance/irqbalance.c:189-226 | a walk that stays inside the list makes at least one binding for each IRQ left |
| IrqAllot.FailureMiscounts | hardware/irqbalance/irqbalance.c:189-226 | if something goes wrong the walk does not end with one binding for each IRQ left |
| IrqAllot.BoundedNeverFails | hardware/irqbalance/irqbalance.c:189-226 | utilisations within 100 never go wrong |
| IrqAllot.WalkIff | hardware/irqbalance/irqbalance.c:189-226 | from any point of the walk, over records in any order and of any utilisation: every IRQ left is bound exactly once if and only if no core that others follow has a negative cast or a negative share |
| IrqAllot.SortedWalkIff | hardware/irqbalance/irqbalance.c:189-226 | for sorted records that the cast keeps, the walk stays inside the list and binds every IRQ once if and only if no core by itself overdraws |
| IrqAllot.NoCoreNoBinding | hardware/irqbalance/irqbalance.c:189-196 | with no core online nothing is bound |
| IrqAllot.CountOnline | hardware/irqbalance/irqbalance.c:181-187 | the counter ends at the number of online records |
| IrqAllot.IrqNum | hardware/irqbalance/irqbalance.c:190-201 | the last online core takes all that is left, any other its share, which may be negative; a utilisation that the cast to int makes negative has no root |
| IrqAllot.Bind | hardware/irqbalance/irqbalance.c:204-217 | one core gets consecutive IRQs of the list, none for a share that is not positive, and no index outside the array is read |
| IrqAllot.SortedCopy | hardware/irqbalance/irqbalance.c:161-177 | a fresh sorted copy; the records themselves are not modified |
| IrqAllot.Walk | hardware/irqbalance/irqbalance.c:179-226 | for records of any utilisation, the loop makes the bindings of the allotment, or leaves the array where the allotment says so |
| IrqAllot.Balance | hardware/irqbalance/irqbalance.c:155-227 | for records of any utilisation, the outcome is that of the allotment over the records put in order |
| IrqAllot.BalancesIff | hardware/irqbalance/irqbalance.c:155-227 | with a core online and whatever the utilisations, balancing binds every IRQ exactly once if and only if nothing goes wrong on the walk; where the cast keeps the utilisations, what goes wrong is that the list is left |
| IrqAllot.CastBindsTwice | hardware/irqbalance/irqbalance.c:189-219 | utilisations 2^32, 200 and at most 200 and eight IRQs: nine bindings inside the list, one IRQ bound to two cores |
| IrqAllot.TwoHundredLeavesArray | hardware/irqbalance/irqbalance.c:189-219 | two online cores, one at 200, and four IRQs: the walk reads before the list |
| IrqAllot.BalancePartitions | hardware/irqbalance/irqbalance.c:155-227 | with a core online and no utilisation above 100 every IRQ is bound exactly once, to an online core, and never after a less busy core was served |
| IrqAllot.BindingsAreOnline | hardware/irqbalance/irqbalance.c:189-217 | whatever the utilisations, every binding of a walk inside the list is to an online record and to its core |
| IrqAllot.OfflineCoreGetsNothing | hardware/irqbalance/irqbalance.c:195-196 | no IRQ is bound to a core without an online record |
| IrqAllot.BusyCoreGetsNothing | hardware/irqbalance/irqbalance.c:193-201 | a fully busy core gets nothing while another online core follows |
| IrqAllot.IdleCoreBeforeLastTakesAll | hardware/irqbalance/irqbalance.c:190-201 | an idle core with one online core after it takes everything |
| IrqWatchdog.UtilWithinHundred | hardware/irqbalance/irqbalance.c:135-150 | for every two readings, rising or falling, wrapped or not: the source divides by zero exactly if the wrapped total did not move, and the utilisation is at most 100 exactly if the wrapped hundredfold busy time is below 101 times the wrapped total |
| IrqWatchdog.UtilWithinHundredIff | hardware/irqbalance/irqbalance.c:135-150 | for moves that do not overflow it is at most 100 if and only if the total fell, or busy time rose and idle time fell by less than a 101st of it, or busy time fell and 101 times the total and 100 times the fall exceed 2^64 |
| IrqWatchdog.UtilIsPercentage | hardware/irqbalance/irqbalance.c:135-150 | when no counter falls and time passes the utilisation is at most 100, even where sums or the product wrap, and exact where the product does not |
| IrqWatchdog.FallingIdleExceedsHundred | hardware/irqbalance/irqbalance.c:135-150 | idle time counted back by one with two busy ticks gives 200 |
| IrqWatchdog.FallingBusyExceedsHundred | hardware/irqbalance/irqbalance.c:135-150 | a busy counter counted back by one gives more than 100, although idle time rose |
| IrqWatchdog.FallingBusyHasNoRoot | hardware/irqbalance/irqbalance.c:189-199 | such a fall can give a utilisation whose cast is negative, and the walk then takes its root |
| IrqWatchdog.LoadOne | hardware/irqbalance/irqbalance.c:118-152 | one record is updated by what was read, falling counters and partial reads included; the others stay; what the update is, UpdatedIsRefreshed and PassIs say |
| IrqWatchdog.LoadWatchdog | hardware/irqbalance/irqbalance.c:117-153 | a pass updates the records up to and including the first that cannot be read, whatever the counters did, as PassIs says |
| IrqWatchdog.BusyIs | hardware/irqbalance/irqbalance.c:135-148 | the busy time is the sum of the nine counters other than idle, and the total is the sum of all ten |
| IrqWatchdog.UtilIs | hardware/irqbalance/irqbalance.c:135-150 | the utilisation is the hundredfold busy time modulo 2^64 divided by the total time modulo 2^64, in terms of the ten counters |
| IrqWatchdog.PassIs | hardware/irqbalance/irqbalance.c:100-152 | in a pass that ends at reading j, the records before j are online with the counters read and the percentage they make, the record whose line stopped matching goes offline and keeps its utilisation, and all others are as they were |
| IrqWatchdog.FailedCoreGetsNothing | hardware/irqbalance/irqbalance.c:100-217 | a core whose line no longer matches gets no IRQ at the balancing that follows |
| IrqWatchdog.PassKeepsRecords | hardware/irqbalance/irqbalance.c:117-153 | a pass, cut short or not, keeps the records' number and core ids |
| IrqWatchdog.PassBoundedIff | hardware/irqbalance/irqbalance.c:117-153 | a pass leaves all utilisations within 100 if and only if each of its complete readings is in range |
| IrqWatchdog.RunBoundedIff | hardware/irqbalance/irqbalance.c:229-253 | over every run of the loop, utilisations are within 100 at every balancing if and only if every complete reading is in range |
| IrqWatchdog.RunSoundIff | hardware/irqbalance/irqbalance.c:229-253 | over every run whose moves do not overflow, if and only if for every complete reading the total fell, or idle time fell by less than a 101st of the busy time, or busy time fell far enough, as the raw counters show |
| IrqWatchdog.GrowingIsCalm | hardware/irqbalance/irqbalance.c:229-253 | readings in which no counter falls and time passes are in range |
| IrqWatchdog.RunKeepsRecords | hardware/irqbalance/irqbalance.c:229-253 | every run keeps the number of records and the core ids, and the range where it held at every pass |
| IrqWatchdog.StartedIs | hardware/irqbalance/irqbalance.c:413-424 | the cores are numbered upwards from the offset, no two alike among at most 256, and start online |
| IrqWatchdog.EveryBalancePartitions | hardware/irqbalance/irqbalance.c:229-253 | from the start of the program, after any run of readings in range, balancing binds each IRQ exactly once if a core is online |
| IrqScan.CountNumbered | hardware/irqbalance/irqbalance.c:328-339 | the first pass counts the lines before the first without a number |
| IrqScan.CountStops | hardware/irqbalance/irqbalance.c:331-339 | the count stops at the first line without a number, whatever follows |
| IrqScan.Scan | hardware/irqbalance/irqbalance.c:317-383 | on every file, blacklist and memory returned by malloc, the two passes give the list, run out of memory, or hang, reading on past the counted lines where they do not suffice |
| IrqScan.ScanIsScanOf | hardware/irqbalance/irqbalance.c:341-374 | where the counted lines suffice they alone decide the list |
| IrqScan.ScanSucceedsIff | hardware/irqbalance/irqbalance.c:341-374 | all slots are filled from the counted lines if and only if the blacklist is no longer than their number and blocks no more lines than it has entries |
| IrqScan.DistinctLoseFew | hardware/irqbalance/irqbalance.c:358-369 | distinct lines lose at most one line to each blacklist entry |
| IrqScan.DistinctLinesAreListed | hardware/irqbalance/irqbalance.c:341-374 | with distinct lines and a blacklist no longer than their number, the result is the first wanted lines in file order |
| IrqScan.ExactBlacklistLosesNothing | hardware/irqbalance/irqbalance.c:341-374 | if moreover the blacklist is a duplicate-free part of the lines, the result is exactly the lines not on it |
| IrqScan.NothingIsLostIff | hardware/irqbalance/irqbalance.c:341-374 | for distinct lines the result is exactly the lines not blacklisted if and only if the blacklist is a duplicate-free part of the lines |
| IrqScan.FillHangsIff | hardware/irqbalance/irqbalance.c:358-374 | where no numbers follow the counted lines, and whatever malloc left in the slots, the second pass never ends if and only if the wanted lines leave slots over and the last line is blacklisted or one of those slots holds a blacklisted number |
| IrqScan.StarvedScanHangs | hardware/irqbalance/irqbalance.c:358-374 | in particular where the counted lines do not fill the slots and the last of them is blacklisted |
| IrqScan.LeftoverHangs | hardware/irqbalance/irqbalance.c:341-374 | with a wanted last line, a slot that malloc left blacklisted hangs it |
| IrqScan.RepeatedLineHangs | hardware/irqbalance/irqbalance.c:341-374 | a line listed twice and blacklisted once is such a case |
| Bluetooth.VendorInterface.Open | hardware/bluetooth/vendor_interface.cc:266-273 | wake counts as deasserted and no timer runs; the globals of an earlier session stay |
| Bluetooth.VendorInterface.Send | hardware/bluetooth/vendor_interface.cc:311-327 | the packet goes out after an ASSERT if wake was deasserted, which also arms the timer |
| Bluetooth.VendorInterface.OnTimeout | hardware/bluetooth/vendor_interface.cc:355-367 | a quiet period deasserts wake and stops the timer; otherwise only the activity flag falls |
| Bluetooth.VendorInterface.Transmit | hardware/bluetooth/vendor_interface.cc:83-93 | the registration replaces the pending one before the command goes out |
| Bluetooth.VendorInterface.HandleIncomingEvent | hardware/bluetooth/vendor_interface.cc:369-381 | an event other than the Command Complete of the pending opcode goes to the client and changes nothing else; that one ends the wait, and commands sent from inside the callback register as usual |
| Bluetooth.WakeFollowsHistory | hardware/bluetooth/vendor_interface.cc:311-367 | over every run wake is asserted if and only if something was sent since opening and at most one timeout has passed since the last send |
| Bluetooth.TwoQuietTimeoutsDeassert | hardware/bluetooth/vendor_interface.cc:355-367 | two timeouts with nothing sent leave wake deasserted |
| Bluetooth.DeassertExactlyWhenQuiet | hardware/bluetooth/vendor_interface.cc:355-367 | a timeout deasserts if and only if nothing was sent since the timeout before it, and the zero timeout never complains |
| Bluetooth.SendsAreAwake | hardware/bluetooth/vendor_interface.cc:311-327 | over every run, at each packet handed to the transport the latest wake operation is ASSERT |
| Bluetooth.AwakeMeansArmed | hardware/bluetooth/vendor_interface.cc:344-367 | once the watchdog runs with a positive timeout, wake asserted implies an armed timer |
| Bluetooth.ConfiguredMeansArmed | hardware/bluetooth/vendor_interface.cc:344-353 | from the reading of a positive timeout and the start of the watchdog on, whatever is sent or received between and after, wake asserted implies a timer armed with that timeout |
| Bluetooth.TransportGetsAll | hardware/bluetooth/vendor_interface.cc:83-93 | over every run the transport gets exactly the data of the sends, transmits and replies, in order |
| Bluetooth.EventsReachTheirRecipient | hardware/bluetooth/vendor_interface.cc:369-381 | over every run each event has the one recipient that the history determines: the latest registration if it still waits and the event answers it, else the client |
| Bluetooth.AnswersAreCommandComplete | hardware/bluetooth/vendor_interface.cc:67-81 | the events taken for an opcode are its Command Complete events, built byte by byte, and no others |
| Bluetooth.TakenIff | hardware/bluetooth/vendor_interface.cc:67-93 | over every run and for all opcodes, the Command Complete event of one is taken by the registration that waits exactly if it waits for that one |
| Bluetooth.OtherEventsGoToClient | hardware/bluetooth/vendor_interface.cc:67-72 | an event with another first byte always goes to the client and ends no wait |
| Bluetooth.EachRegistrationFiresOnce | hardware/bluetooth/vendor_interface.cc:67-93 | no registration is served twice, and each only by a Command Complete event of its opcode, byte by byte, that came after it |
| Bluetooth.ReplyStaysPending | hardware/bluetooth/vendor_interface.cc:374-377 | the last command sent from inside the callback is still pending when the event is handled |
| PowerProfiles.EverySectionIsListed | hardware/power/Profiles.cpp:328-343 | the loader goes through every section |
| PowerProfiles.EveryLeafIsListed | hardware/power/Profiles.cpp:361-427 | the loader goes through every leaf |
| PowerProfiles.SecPowerProfile.Set | hardware/power/Profiles.cpp:188-219 | the profile's own text is stored and marked, otherwise the default is stored unless something marked is there |
| PowerProfiles.SecPowerProfile.Init | hardware/power/Profiles.cpp:305-323 | a section present in the document gets its flag; an absent one keeps it and is marked absent |
| PowerProfiles.SecPowerProfile.SetAll | hardware/power/Profiles.cpp:361-427 | every leaf whose sections are enabled is set, in the loader's order |
| PowerProfiles.LoadProfile | hardware/power/Profiles.cpp:325-428 | one profile's structure is replaced by what its document and the copied parent give, governor data included; no other profile changes |
| PowerInheritance.LoadProfiles | hardware/power/Profiles.cpp:86-121 | the six profiles are loaded one after the other, each seeing those loaded before |
| PowerInheritance.InitSectionsEffect | hardware/power/Profiles.cpp:305-343 | after the section pass each flag is what the profile's own document says |
| PowerInheritance.SetLeavesEffect | hardware/power/Profiles.cpp:361-427 | the leaf pass sets each guarded leaf once and touches no flag |
| PowerInheritance.LoadedLeaf | hardware/power/Profiles.cpp:345-428 | a leaf after loading is what a lookup along the chain of documents gives |
| PowerInheritance.LoadedFlags | hardware/power/Profiles.cpp:326-359 | the flags after loading are what a lookup along the chain gives |
| PowerInheritance.TableConforms | hardware/power/Profiles.cpp:86-121 | every structure agrees with the documents after every number of loaded profiles |
| PowerInheritance.LeavesComeFromNearest | hardware/power/Profiles.cpp:188-282 | for all documents, a leaf of an enabled profile and sections has the value of the nearest profile in the extends chain that writes it, else the default, and is marked if and only if some profile writes it; a governor table is the nearest one, and never marked |
| PowerInheritance.FlagsAreTheRoots | hardware/power/Profiles.cpp:345-359 | the flags a profile ends with are those of the root of its extends chain, all off if the root extends a profile loaded later |
| PowerInheritance.LaterParentSwitchesOff | hardware/power/Profiles.cpp:349-359 | an enabled profile that extends a later one ends with no flag on and no leaf set |
| PowerTable.FieldsAreTheRoots | hardware/power/Profiles.cpp:325-359 | every field of a loaded profile other than the leaves, marks included, is what the root of its extends chain says by itself |
| PowerTable.OwnFields | hardware/power/Profiles.cpp:305-343 | what a document says by itself: which texts switch a section on, the mark of its flag, and the mark that the section is there |
| PowerTable.NamesInOrder | hardware/power/Profiles.cpp:51-120 | the six names a profile can extend, in the order of loading |
| PowerTable.ConvertReadsPrinted | hardware/power/Profiles.cpp:127-133 | numbers are refused beyond 32 bits, and a negative one wraps as unsigned |
| PowerTable.ApolloGovernorLeaves | hardware/power/Profiles.cpp:245-250 | with everything enabled, the literal path of each of these leaves holds its value, and without it the leaf has the literal default, unmarked |
| PowerTable.ApolloFrequencyLeaves | hardware/power/Profiles.cpp:248-249 | the same for the upper frequencies of the first cluster |
| PowerTable.ApolloCoreLeaves | hardware/power/Profiles.cpp:251-256 | the same for its cores |
| PowerTable.AtlasGovernorLeaves | hardware/power/Profiles.cpp:245-250 | the same for governor and lower frequencies of the second cluster |
| PowerTable.AtlasFrequencyLeaves | hardware/power/Profiles.cpp:248-249 | the same for its upper frequencies, whose default differs |
| PowerTable.AtlasCoreLeaves | hardware/power/Profiles.cpp:251-256 | the same for its cores |
| PowerTable.CpusetsLeaves | hardware/power/Profiles.cpp:373-380 | the same for the cpusets |
| PowerTable.HmpLeaves | hardware/power/Profiles.cpp:382-387 | the same for the switches of the scheduler |
| PowerTable.ThresholdLeaves | hardware/power/Profiles.cpp:389-397 | the same for its four thresholds |
| PowerTable.GpuLeaves | hardware/power/Profiles.cpp:400-409 | the same for the four numbers of the GPU |
| PowerTable.OtherLeaves | hardware/power/Profiles.cpp:411-422 | the same for kernel, ipa and slow |
| PowerTable.BoosterLeaves | hardware/power/Profiles.cpp:424-427 | the same for the input booster |
| PowerTable.GovernorLeaves | hardware/power/Profiles.cpp:258-282 | the governor's table is the document's, or empty, and never marked |
| PowerPaths.GuardsAreEnclosing | hardware/power/Profiles.cpp:361-427 | a leaf lies in exactly the sections whose path, with a slash, its own path begins with |
| PowerPaths.PathsAreDistinct | hardware/power/Profiles.cpp:361-427 | no two leaves are read from the same place |
| PropertyFraming.Int4OfBytes4 | tools/resetprop/system_property_set.cpp:126-135 | a 32-bit integer is recovered from its four bytes |
| PropertyFraming.SocketWriter.WriteUint32 | tools/resetprop/system_property_set.cpp:126-135 | what is gathered grows by the integer's bytes, and no slot that an entry points at is overwritten |
| PropertyFraming.SocketWriter.WriteChars | tools/resetprop/system_property_set.cpp:144-147 | the entry for a string adds its characters to what is gathered and disturbs nothing before it |
| PropertyFraming.SocketWriter.WriteString | tools/resetprop/system_property_set.cpp:137-150 | what is gathered grows by the length and the characters, the empty string included |
| PropertyFraming.SocketWriter.Gather | tools/resetprop/system_property_set.cpp:157-157 | the bytes written are those the entries point at when writing |
| PropertyFraming.SocketWriter.Send | tools/resetprop/system_property_set.cpp:152-164 | success means connected and not refused; both arrays are then reused, otherwise they stay and nothing is sent |
| PropertyFraming.QueueRequest | tools/resetprop/system_property_set.cpp:292-293 | the three writes use at most five of the eight entries and three of the eight slots, and queue command, key and value one after the other |
| PropertyFraming.SendRequest | tools/resetprop/system_property_set.cpp:282-293 | with a connection and no write error, what is sent is command, length and key, length and value, as far as the service takes it; otherwise nothing |
| PropertyFraming.SystemPropertySet | tools/resetprop/system_property_set.cpp:258-319 | with a service that takes and acknowledges everything, 0 is returned exactly for a short key and value in the old protocol, and in the current one for a value under 92 bytes or a key that begins with ro.; the first four bytes and all others sent; and in general 0 exactly if the message went out and was acknowledged |
| PropertyFraming.MessageIffAccepted | tools/resetprop/system_property_set.cpp:266-280 | which keys and values make a message, and its length, in literal bounds |
| PropertyFraming.MessageLayout | tools/resetprop/system_property_set.cpp:271-293 | the bytes of a message written out, under either protocol |
| PropertyFraming.SendPropMsg | tools/resetprop/system_property_set.cpp:185-228 | a message of the old protocol succeeds if and only if all of it was taken, answered or not |
| PropertyFraming.RequestReadsBack | tools/resetprop/system_property_set.cpp:137-150 | every request can be read back, strings cut to a 32-bit length |
| PropertyFraming.RequestIsFaithfulIff | tools/resetprop/system_property_set.cpp:137-150 | it reads back as exactly its command, key and value if and only if both strings are shorter than 2^32 |
| PropertyFraming.RequestsDiffer | tools/resetprop/system_property_set.cpp:292-293 | distinct requests below that length never have the same bytes |
| PropertyFraming.UntilNulOfField | tools/resetprop/system_property_set.cpp:271-275 | a NUL-free string is read back from the zeroed array it was copied to |
| PropertyFraming.MessagesReadBack | tools/resetprop/system_property_set.cpp:266-293 | under either protocol a request that goes out carries exactly the key and the value |
| PropertyFraming.CutRequestIsRefused | tools/resetprop/system_property_set.cpp:152-164 | no proper prefix of a request can be read as one |
| PropertyFraming.SuccessCarriesTheProperty | tools/resetprop/system_property_set.cpp:258-319 | after a reported success the service could read the key and the value if and only if the write was not short, which only the old protocol checks |

## Left out

- Camera payloads: `ClearCallbacks` and the exit drain delete a message and not the data it points to; the model has no payload memory, so freedom from leaks is not claimed.
- Camera steps: a clear, the drain at exit and the checks around a wait are one step each, because the mutex is held throughout; the loops inside are proved in the class methods.
- Camera wrappers: the `usleep` delays after a post, callback kinds other than notify and data, vendor calls that block, the vendor's own close inside `camera2_device_close`, the failure paths of `camera2_device_open`, and the `ExitThread` of the destructor.
- Other size keys, `setFloat`, `getFloat`, `remove` and NULL arguments of `set`: copies of what is modelled, or short cases.
- KeyedVector is modelled by its contract, a list in strictly increasing key order.
- IrqAllot.FormulaIsShare: the square root is exact and the division is over the reals; the rounding of `double` is not modelled.
- IRQ files: the affinity mask text, failures to open the files under /proc, the pauses between passes and the configuration file; a binding stands for the write.
- IRQ counters: a complete reading whose wrapped total did not move makes the source divide by zero; such readings are excluded, all others are not.
- IRQ walk: overflow of the count of processed IRQs is not modelled, and the conversion to int of a root that is not a number ends the model's walk.
- IrqScan.FillHangsIff: is about files in which no line with a number follows the first without one; for other files `IrqScan.Scan` still gives the result.
- IRQ scan: a negative size given to malloc is taken to fail.
- Bluetooth: failures of `Open`, the protocol handlers for H4 and MCT, and the fd watcher, which is a timer that may fire repeatedly; `OnFirmwareConfigured` is two events, since sends can come between reading the timeout and arming the timer.
- Bluetooth.VendorInterface.Transmit: the registration and the send are one event; the source writes the callback and then the opcode without a lock (vendor_interface.cc:86-87), so an event handled in between would be matched against the old opcode.
- Bluetooth events shorter than what is read of them are excluded, because the source indexes them without a check.
- Power XML: libxml2 is a map from paths to texts; elements without text, text that `std::stoi` refuses and unknown names in `extends`, on which the source crashes or throws, are excluded where the source reads them; the rows of a governor data table are one text, and its fixed size is not modelled.
- Power profile switching, sysfs writes and reloading while a profile is in use.
- Property service: choosing the protocol version, NULL key or value, and the wait for the old service to hang up, which changes nothing; the service itself is a parameter.
- GNSS wrappers, livedisplay, rild, init_sec, camera3 forwarding, shims, wakelock and SVID mapping, Bluetooth address text, feature XML and the resetprop command line: forwarding code or short case analyses.
