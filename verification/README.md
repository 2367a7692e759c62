# A verified model of the algorithms and protocols in this device tree

Most of a device tree is glue. This project models the parts that are not: the byte-string
search of the recovery updater and seven pieces of the GPS stack that keep data structures,
protocols and state machines right over long runs. The Dafny modules follow the source files:

| module | source | subject |
|---|---|---|
| `BoyerMoore` | `recovery/recovery_updater.cpp` | two skip tables and a right-to-left scan |
| `LocHeap` | `gps/utils/LocHeap.cpp` | a pointer heap, popped by swapping data down to a leaf |
| `LocTimerProtocol`, `LocTimerContainer` | `gps/utils/LocTimer.cpp` | timers shared by clients, a message thread, a poll thread and the kernel |
| `Agps`, `AgpsReports`, `AgpsStateMachine` | `gps/gnss/Agps.cpp` | subscribers of a data connection, and the retrying data-service machine |
| `Tracking` | `gps/gnss/GnssAdapter.cpp` | many tracking sessions on one engine |
| `Odcpi` | `gps/gnss/GnssAdapter.cpp`, `gps/gnss/GnssAdapter.h` | the throttle of on-demand position requests |
| `LocUnorderedSetMap`, `SystemStatusOsObserver` | the files of the same names | a two-way subscription index and its fan-out |
| `LocIpc` | `gps/utils/LocIpc.cpp` | fragmentation and reassembly of messages |

Code that changes things in place is modelled by methods over arrays and objects with the
source's fields. Each such method is proved against a function of values, and the main results
are lemmas about those functions, over all inputs and all runs.

## Where the code does not do what it says

Each of these is proved, with the condition under which the promise does hold or, where there
is none, with the run that breaks it.

- The second skip table stores `p + 1` where its test looked at the suffix at `p`
  (`recovery/recovery_updater.cpp:83-84`). For NUL-free patterns the search finds the first
  match in every text exactly when the pattern has no border or repeats one byte. The pattern
  the updater uses has no border.
- `update` is documented to return the values that lose their place
  (`gps/utils/LocUnorderedSetMap.h:173-175`), but returns the ones that stay (182-184). So
  `updateSubscription` keeps the index inverse exactly for clients that had no subscription.
- The data-service machine retries a busy engine only while RELEASED. At the end of RELEASING
  it becomes PENDING before it asks the engine and does not look at the answer
  (`gps/gnss/Agps.cpp:231-234`, 270-273). A busy engine sets the retry timer there, but the
  retries find the machine PENDING and do nothing: the engine is not asked again and nothing
  falls back to SUPL. Retries ask again and fall back exactly when the state is RELEASED.
- `LocTimerDelegate::expire` reads its client without the lock and stops it later
  (`gps/utils/LocTimer.cpp:530-532`). A client that stops its timer and starts another in
  between is called back for the stopped one, and loses the new one ahead of its deadline;
  `OdcpiTimer::restart` is such a pair of calls. A callback is for the timer that was popped
  exactly when its client has not stopped that timer.
- An expire message pops its first timer without looking at the deadline
  (`gps/utils/LocTimer.cpp:370`), so a timer can fire early, by any amount.
- The branch of `updateSoonestTime` that disarms the kernel timer and stops polling is never
  taken: no caller passes a prior top when the heap has become empty.
- `restartSessions` ignores the answer of the engine (`gps/gnss/GnssAdapter.cpp:1244`). After a
  failed restart the engine stays off until some command makes an engine call that succeeds;
  commands that need no call, such as a start with an interval not below the others', return
  success with the engine off.
- The receive buffer is not cleared between messages (`gps/utils/LocIpc.cpp:101`), so a long
  message is lost when the message before left a digit where its header ends.
- Position requests that alternate between plain and emergency are not throttled at all; and
  an expiry calls the framework callback without looking whether it was set to null since
  (`gps/gnss/GnssAdapter.cpp:2690`).
- A handle that is requested again while ACQUIRED is told of success again.
- A release while RELEASED reports the close and leaves the subscriber in the list
  (`gps/gnss/Agps.cpp:120-123`). Between two retries of the data-service machine that means
  that the retries go on for a subscriber that was told it is over.
- `notify` fills a vector that already holds as many null entries
  (`gps/core/SystemStatusOsObserver.cpp:348`); they do nothing.

Two more disagreements show on reading and have no theorem of their own. `LocHeap::remove` is
documented to look for an object of the same rank (`gps/utils/LocHeap.h:84`) and looks for the
object itself, as the model does. And `loc_timer_start` returns a handle, not an error code, so
the retry branch at `gps/gnss/Agps.cpp:629-633` returns -1 where the busy code was meant; both
are non-zero, and the caller only tests for zero.

## Model

| member | source | states |
|---|---|---|
| BoyerMoore.BmSearch | recovery/recovery_updater.cpp:98-125 | for every non-empty pattern the scan with the two tables ends, a result is a true match, and for border-free and for one-byte patterns it is the lowest match, or there is none |
| BoyerMoore.FindsFirstIffBorderFreeOrUniform | recovery/recovery_updater.cpp:77-125 | for NUL-free patterns: the lowest match is found in every text if and only if the pattern has no border or repeats one byte |
| BoyerMoore.FindsFirstIffSafe | recovery/recovery_updater.cpp:77-125 | for all patterns: the lowest match is found in every text if and only if no table entry jumps past an alignment of a suffix with a prefix |
| BoyerMoore.SafePatternFindsFirst | recovery/recovery_updater.cpp:111-122 | from any start below which nothing matches, the scan finds the first match of a safe pattern |
| BoyerMoore.NoMatchIsSkipped | recovery/recovery_updater.cpp:121 | the larger of the two shifts never moves past an occurrence, whatever text byte caused the mismatch |
| BoyerMoore.UnsafePatternMisses | recovery/recovery_updater.cpp:83-84 | every unsafe pattern has a text that holds it and in which the search returns nothing |
| BoyerMoore.BorderedPatternIsUnsafe | recovery/recovery_updater.cpp:81-87 | a pattern with a border, unless of one repeated byte, overshoots its smallest border on a mismatch at index 1 |
| BoyerMoore.HarmlessPatterns | recovery/recovery_updater.cpp:81-95 | patterns without border and patterns of one byte are safe |
| BoyerMoore.BorderedPatternIsMissed | recovery/recovery_updater.cpp:83-84 | ABCAB occurs in ABDABCAB at 3 and is not found |
| BoyerMoore.ModemVersionIsFound | recovery/recovery_updater.cpp:45-46 | the version marker of 14 bytes is found at its first place in every modem image that holds it |
| BoyerMoore.SearchIsSound | recovery/recovery_updater.cpp:111-122 | for every pattern, bordered or not, a result lies at or after the start and is a match |
| BoyerMoore.ShiftIsPositive | recovery/recovery_updater.cpp:81-95 | every table entry moves the pattern by at least one and at most its length, so the scan ends |
| BoyerMoore.BadCharShiftIsRightmost | recovery/recovery_updater.cpp:65-74 | an entry of the first table is the distance to the rightmost occurrence of the byte before the end |
| BoyerMoore.ShiftFromIsSmallest | recovery/recovery_updater.cpp:89-95 | an entry of the second table is the smallest re-occurrence shift if there is one and the stored prefix shift if not |
| BoyerMoore.LastPrefixOfSmallestBorder | recovery/recovery_updater.cpp:81-87 | the stored prefix shift is one more than the start of the smallest border |
| BoyerMoore.StrncmpIsBorder | recovery/recovery_updater.cpp:83 | without NUL bytes the comparison by `strncmp` holds exactly for borders |
| BoyerMoore.EnterReoccurrence | recovery/recovery_updater.cpp:89-95 | one turn of the second loop enters exactly the shifts of one end position, so that later turns leave the smaller shift |
| BoyerMoore.MaxSuffixLen | recovery/recovery_updater.cpp:52-60 | length of the longest common suffix of the prefix ending at p and the whole, at most p |
| BoyerMoore.MakeDelta1 | recovery/recovery_updater.cpp:65-74 | the in-place first table holds the bad-character shift of every byte |
| BoyerMoore.EnterPrefixes | recovery/recovery_updater.cpp:78-87 | after the first loop the table holds the prefix shifts |
| BoyerMoore.EnterReoccurrences | recovery/recovery_updater.cpp:89-95 | after the second loop every entry is the smallest re-occurrence shift or the prefix shift |
| BoyerMoore.MakeDelta2 | recovery/recovery_updater.cpp:77-96 | the in-place second table holds the good-suffix shift of every index |
| BoyerMoore.CompareBackwards | recovery/recovery_updater.cpp:113-117 | the inner loop stops at the rightmost mismatch of the alignment, or before index 0 |
| LocHeap.EveryReachableHeapIsChecked | gps/utils/LocHeap.cpp:197-267 | after every run of pushes, pops and removals the heap is ordered, its sizes are exact and the self-check passes |
| LocHeap.ApplyKeepsHeap | gps/utils/LocHeap.cpp:107-193 | each operation keeps order and sizes, and the stored multiset changes by exactly the object pushed, popped or removed |
| LocHeap.DrainIsSorted | gps/utils/LocHeap.cpp:134-164 | popping until empty returns every stored object once, none outranked by a later one |
| LocHeap.DrainReturnsAll | gps/utils/LocHeap.cpp:134-164 | repeated pops return the stored multiset |
| LocHeap.RemoveFindsStored | gps/utils/LocHeap.cpp:170-193 | removal finds the object if and only if it is stored: subtrees cut off by rank cannot hold it |
| LocHeap.RemoveKeepsHeap | gps/utils/LocHeap.cpp:170-193 | removal keeps order and sizes and takes out nothing but the object |
| LocHeap.RemoveKeepsOrder | gps/utils/LocHeap.cpp:170-193 | what removal leaves is ordered, has one node less and no higher top |
| LocHeap.RemoveTakesOne | gps/utils/LocHeap.cpp:170-193 | removal takes one occurrence of the object and of nothing else, whatever the ranking |
| LocHeap.PopKeepsHeap | gps/utils/LocHeap.cpp:134-164 | a pop keeps order and sizes and takes out exactly the top object |
| LocHeap.PopKeepsOrder | gps/utils/LocHeap.cpp:134-164 | swapping data down to a leaf leaves an ordered tree with one node less and no higher top |
| LocHeap.PopTakesTop | gps/utils/LocHeap.cpp:134-164 | a pop takes one occurrence of the top and of nothing else |
| LocHeap.PushKeepsHeap | gps/utils/LocHeap.cpp:107-124 | a push keeps order and sizes and adds exactly the object |
| LocHeap.PushKeepsOrder | gps/utils/LocHeap.cpp:107-124 | a push keeps the order; the new top is the better of the old top and the object |
| LocHeap.PushKeepsSizes | gps/utils/LocHeap.cpp:107-124 | a push keeps the recorded sizes true, whatever the ranking |
| LocHeap.PushAddsOne | gps/utils/LocHeap.cpp:107-124 | a push adds one occurrence of the object and of nothing else |
| LocHeap.TopOutrankedByNone | gps/utils/LocHeap.cpp:126-136 | no stored object outranks the top of an ordered heap |
| LocHeap.CheckIsExact | gps/utils/LocHeap.cpp:197-220 | the local self-check accepts exactly the trees that are ordered and have exact sizes throughout |
| LocHeap.PushKeepsBalance | gps/utils/LocHeap.cpp:113-122 | a push keeps left subtrees equal to right ones or larger by one |
| LocHeap.HeightIsLogarithmic | gps/utils/LocHeap.cpp:101-122 | a balanced tree of height h holds at least 2^(h-1) nodes |
| LocHeap.PushedHeapsAreBalanced | gps/utils/LocHeap.cpp:101-124 | a heap made by n pushes is balanced, holds n objects and is at most floor(log2 n) + 1 high |
| LocHeap.LocHeapNode.Swap | gps/utils/LocHeap.cpp:87-92 | any two nodes, a parent and its child included, exchange their data and nothing else |
| LocHeap.LocHeapNode.Push | gps/utils/LocHeap.cpp:107-124 | the linked nodes become the tree `Pushed`, with the one new node |
| LocHeap.LocHeapNode.Pop | gps/utils/LocHeap.cpp:134-164 | the nodes become the tree `Rest`; the node taken out holds the old top data, has no children and is not among the nodes that remain, so none of them links to it |
| LocHeap.LocHeapNode.Remove | gps/utils/LocHeap.cpp:170-193 | the nodes become the tree `Without` when it exists, without the node taken out, and are unchanged when not |
| LocHeap.LocHeapNode.CheckNodes | gps/utils/LocHeap.cpp:197-220 | reading the nodes gives the self-check of the tree they stand for |
| LocHeap.LocHeap.Push | gps/utils/LocHeap.cpp:228-235 | the stored multiset gains the object, and the heap stays valid |
| LocHeap.LocHeap.Peek | gps/utils/LocHeap.cpp:237-243 | a stored object that none outranks, or nothing exactly for the empty heap |
| LocHeap.LocHeap.Pop | gps/utils/LocHeap.cpp:245-254 | takes out a stored object that none outranks; nothing exactly for the empty heap |
| LocHeap.LocHeap.Remove | gps/utils/LocHeap.cpp:256-267 | takes out the object if and only if it is stored, and otherwise leaves the heap as it is |
| LocHeap.LocHeap.CheckTree | gps/utils/LocHeap.cpp:269-272 | the self-check of every valid heap passes |
| LocTimerProtocol.NoTimerIsLost | gps/utils/LocTimer.cpp:283-394 | in every interleaving a running timer is queued, in the heap or in the hand of the message thread, and a non-empty heap has the kernel timer armed at its top and polled, or an expire message queued or on its way, or the message thread at work on it |
| LocTimerProtocol.TimerLivesOnce | gps/utils/LocTimer.cpp:331-355 | in every interleaving a timer is ended by at most one callback and by none once a client stopped it, its own `expire` calls back at most once, and a deleted timer is in no queue, no heap slot and not in hand |
| LocTimerProtocol.CallbackIsOwnUnlessStopped | gps/utils/LocTimer.cpp:526-538 | in every interleaving each callback goes to the client of the popped timer, and ends that very timer if and only if the client has not stopped it |
| LocTimerProtocol.CallbackFollowsClient | gps/utils/LocTimer.cpp:526-538 | in every reachable state between the read of the client and its stop: the callback is made exactly when the client has a timer, is for the popped one exactly when that still runs, and otherwise the client has stopped it |
| LocTimerProtocol.RestartCanLoseNewTimer | gps/utils/LocTimer.cpp:526-538 | for any two timers of a client and any clock between their deadlines there is a run in which it is called back for the one it stopped, and the new one is ended early and before it reached the heap |
| LocTimerProtocol.StepKeepsOwner | gps/utils/LocTimer.cpp:526-591 | every step keeps callbacks with the clients of the popped timers, and a timer whose client was read is running or was stopped |
| LocTimerProtocol.LaterPopsAreDue | gps/utils/LocTimer.cpp:369-373 | in every reachable state a step inside the loop of an expire message takes out only the top, and only when it is due |
| LocTimerProtocol.LoopLeavesNothingDue | gps/utils/LocTimer.cpp:369-375 | the loop is left only when all that stays is later than the time the message read, and the kernel timer is set next for the top |
| LocTimerProtocol.WakeBecomesOneExpire | gps/utils/LocTimer.cpp:380-384 | a kernel timer that went off is disarmed, taken out of the poll set and turned into one expire message |
| LocTimerProtocol.ServiceComesToRest | gps/utils/LocTimer.cpp:283-475 | from every reachable state the two threads stop after boundedly many steps in whatever order, and then every timer that was running and due has been ended by a callback |
| LocTimerProtocol.ServiceCanComeToRest | gps/utils/LocTimer.cpp:283-475 | from every reachable state the two threads have a run of boundedly many steps to a state in which both rest and every timer that was running and due has been ended by a callback |
| LocTimerProtocol.RunToRest | gps/utils/LocTimer.cpp:283-475 | every run of the two threads alone can be continued to a state in which both rest |
| LocTimerProtocol.InternalStepTakesWork | gps/utils/LocTimer.cpp:283-475 | every step of the two threads reduces a finite measure |
| LocTimerProtocol.InternalRun | gps/utils/LocTimer.cpp:283-475 | runs of the two threads alone are no longer than that measure |
| LocTimerProtocol.RestingMeansNothingDue | gps/utils/LocTimer.cpp:283-394 | when both threads wait, no running timer is due |
| LocTimerProtocol.EveryRunKeepsInv | gps/utils/LocTimer.cpp:283-394 | the invariant of kernel timer, clock and every timer's accounts holds in every reachable state |
| LocTimerProtocol.StepKeepsKernelInv | gps/utils/LocTimer.cpp:283-394 | every step of every party keeps a non-empty heap watched and the heap in order |
| LocTimerProtocol.StepKeepsTimerInv | gps/utils/LocTimer.cpp:312-384 | every step keeps each timer in at most one place and its push before its removal |
| LocTimerProtocol.TimerCanFireEarly | gps/utils/LocTimer.cpp:369-373 | for any two timers and any clock between their deadlines there is a run in which the later one calls back too early |
| LocTimerProtocol.PushUpdatesKernel | gps/utils/LocTimer.cpp:320-324 | a push sets the kernel timer exactly when the top changes |
| LocTimerProtocol.DisarmBranchIsDead | gps/utils/LocTimer.cpp:292-297 | with the arguments the callers pass, the disarm branch is not taken |
| LocTimerProtocol.RankIsEarlierDeadline | gps/utils/LocTimer.cpp:509-523 | within `int` range of each other, times rank as their nanoseconds compare |
| LocTimerProtocol.RankWrapsOutsideIntRange | gps/utils/LocTimer.cpp:514-516 | beyond that range a later time can outrank an earlier one |
| LocTimerProtocol.RanksIsStrictWeak | gps/utils/LocTimer.cpp:509-523 | the ranking of deadlines is what the heap needs |
| LocTimerProtocol.FutureTimeIsExact | gps/utils/LocTimer.cpp:557-564 | the deadline is exactly the timeout after now, and normalised |
| LocTimerContainer.ExpiryIsSorted | gps/utils/LocTimer.cpp:363-377 | an expire message takes timers out in deadline order, each but the first being due, leaves none that is due, and loses none |
| LocTimerContainer.AllPoppedAreDueIffTopIsDue | gps/utils/LocTimer.cpp:369-373 | every timer that an expire message pops is due if and only if the top was due |
| LocTimerContainer.LocTimerContainer.UpdateSoonestTime | gps/utils/LocTimer.cpp:283-309 | kernel timer and poll set follow the decision the protocol model makes |
| LocTimerContainer.LocTimerContainer.MsgTimerPush | gps/utils/LocTimer.cpp:320-324 | the heap gains the timer and the kernel timer is set when the top changed |
| LocTimerContainer.LocTimerContainer.MsgTimerRemove | gps/utils/LocTimer.cpp:337-348 | the heap loses the timer; removing the top, and only that, sets the kernel timer for what remains |
| LocTimerContainer.LocTimerContainer.PopIfOutRanks | gps/utils/LocTimer.cpp:387-394 | pops the top exactly when the given timer does not outrank it |
| LocTimerContainer.LocTimerContainer.PopDue | gps/utils/LocTimer.cpp:369-373 | the loop pops the first timer unasked and then the due ones |
| LocTimerContainer.LocTimerContainer.MsgTimerExpire | gps/utils/LocTimer.cpp:363-377 | due timers fire in deadline order, none due is left, and the kernel timer is set for the new top |
| Agps.EveryHandleGetsItsReports | gps/gnss/Agps.cpp:72-386 | with fresh handles, in every run: a listed subscriber has no terminal report and, when active, one open-success exactly in ACQUIRED; one that left has exactly one terminal report, unless a modem restart dropped it |
| Agps.RepeatedRequestIsToldTwice | gps/gnss/Agps.cpp:96-102 | a handle requested again while ACQUIRED is told of success twice, so freshness is needed |
| Agps.RepeatedRequestKeepsAccountsIff | gps/gnss/Agps.cpp:72-113 | a request for a listed handle keeps its accounts if and only if the machine is not ACQUIRED or the handle, inactive by then, was never told of success |
| Agps.RepeatedActiveRequestKeepsAccountsIff | gps/gnss/Agps.cpp:72-113 | for an active subscriber: if and only if the machine is not ACQUIRED |
| Agps.EveryRunKeepsShape | gps/gnss/Agps.cpp:72-290 | in every run handles are distinct, inactive subscribers wait for the close and RELEASED means an empty list; without modem restarts PENDING and ACQUIRED have an active and RELEASING an inactive subscriber |
| Agps.StepKeepsListInv | gps/gnss/Agps.cpp:72-513 | every event, modem restarts included, keeps the first three of these |
| Agps.StepKeepsActiveInv | gps/gnss/Agps.cpp:72-290 | every event but a modem restart keeps the other two |
| Agps.ConnectionRequestsBalance | gps/gnss/Agps.cpp:72-314 | in every run, restarts included, requests less releases less connections taken away are one in PENDING and ACQUIRED and zero otherwise |
| Agps.StepBalances | gps/gnss/Agps.cpp:72-314 | every event changes the balance as it changes the state |
| Agps.StepKeepsAccounts | gps/gnss/Agps.cpp:72-386 | every event keeps the accounts of every handle |
| Agps.OneNoticeEach | gps/gnss/Agps.cpp:316-386 | a notification of distinct subscribers reports once to each of them and to nobody else |
| AgpsReports.FlagIsRequested | gps/gnss/Agps.cpp:770-796 | over every run, of either machine, a listed subscriber has the wait flag of a request for its handle, and with fresh handles of no other |
| AgpsReports.ReleaseFollowsRequest | gps/gnss/Agps.cpp:116-178 | over every run with fresh handles, of either machine, outside RELEASED: a release of a handle requested without waiting is told of the close in that step and leaves the list; one requested with waiting is told nothing in that step and stays, inactive |
| AgpsReports.ReleaseReaches | gps/gnss/Agps.cpp:125-178 | the whole effect of a release outside RELEASED: what is sent and in which order, who stays, and the next state |
| AgpsReports.ReleaseWhileReleased | gps/gnss/Agps.cpp:120-123 | while RELEASED a release is reported closed and changes nothing else |
| AgpsReports.UnknownReleaseIsIgnored | gps/gnss/Agps.cpp:819-825 | no machine does anything for a handle it does not know |
| AgpsReports.GrantReaches | gps/gnss/Agps.cpp:180-201 | a grant while PENDING gives the connection and exactly one success to every active subscriber and to nobody else; in other states it does nothing |
| AgpsReports.DenialReaches | gps/gnss/Agps.cpp:279-284 | a denial while PENDING, and for the data-service machine a release too, ends it: every subscriber gets exactly one open-failure, or one SUPL request in its place, and goes |
| AgpsReports.ForcedReleaseReaches | gps/gnss/Agps.cpp:214-221 | a release while ACQUIRED ends it: every subscriber gets exactly one close and goes |
| AgpsReports.UnexpectedIsIgnored | gps/gnss/Agps.cpp:203-258 | denials and releases in the states they do not fit do nothing |
| AgpsReports.EndOfReleasingForAll | gps/gnss/Agps.cpp:223-240 | RELEASING ends with nobody active: the inactive subscribers get one close each, the list is empty, the state RELEASED |
| AgpsReports.EndOfReleasingKeepsActive | gps/gnss/Agps.cpp:223-240 | RELEASING ends with somebody active: exactly the active ones stay, in order, and the machine is PENDING |
| AgpsReports.EndOfReleasingForSome | gps/gnss/Agps.cpp:223-240 | then the inactive subscribers get one close each and the connection is asked for anew, with what that sends |
| AgpsReports.RequestList | gps/gnss/Agps.cpp:398-417 | a request appends its handle, active and with its flag, unless it is listed |
| AgpsReports.RequestWhileBusy | gps/gnss/Agps.cpp:92-109 | a request outside RELEASED is told of success exactly in ACQUIRED and never asks for the connection |
| AgpsReports.RequestWhileReleased | gps/gnss/Agps.cpp:76-90 | a request while RELEASED asks for the connection, and the machine is PENDING exactly if that succeeded |
| AgpsReports.AttemptReaches | gps/gnss/Agps.cpp:583-650 | what an attempt sends, whom it is about and when it counts as success, for both machines (296-314) |
| AgpsReports.AttemptCounts | gps/gnss/Agps.cpp:621-634 | an attempt counts a busy engine, starts the count again when it gives up, and else leaves it |
| AgpsReports.NotifyAllAbout | gps/gnss/Agps.cpp:316-386 | a notification sends one notice about each chosen subscriber and none about others |
| AgpsReports.StepKeepsFlags | gps/gnss/Agps.cpp:72-513 | no event changes the flag of a listed subscriber |
| Agps.EveryRunKeepsRetryBound | gps/gnss/Agps.cpp:518-650 | in every run of the data-service machine there are at most four retries between events, and the list keeps its shape |
| Agps.RetriesFallBackIffReleased | gps/gnss/Agps.cpp:558-634 | for every state of the data-service machine: the retries ask the busy engine again, until five attempts are made in all, and end in exactly one SUPL request for the first active subscriber, if and only if the machine is RELEASED; otherwise they do neither |
| Agps.RetriesElsewhere | gps/gnss/Agps.cpp:72-113 | in PENDING and RELEASING any number of retries changes nothing, in ACQUIRED each reports success again and nothing else |
| Agps.BusyAfterReleasingIsStuck | gps/gnss/Agps.cpp:223-240 | whenever RELEASING ends with an active subscriber left and retries to spare and the engine is busy, the machine is PENDING with a retry timer set and no number of retries changes anything |
| Agps.BusyAfterReleasingRun | gps/gnss/Agps.cpp:223-240 | for any two handles there is a run from the fresh machine to such a state |
| Agps.BusyRetriesCount | gps/gnss/Agps.cpp:621-634 | from RELEASED, n busy attempts within the bound ask the engine n times, set n timers and count n |
| Agps.BusyEngineFallsBackOnce | gps/gnss/Agps.cpp:558-634 | from RELEASED, an engine that is always busy is asked until five attempts are made, then the first active subscriber gets one SUPL request and the count is zero again |
| Agps.FailedCallGoesToSupl | gps/gnss/Agps.cpp:523-538 | a denial while pending, and a release likewise, posts one SUPL request for every subscriber in order and empties the list |
| Agps.DenialsAreSuplRequests | gps/gnss/Agps.cpp:668-677 | the data-service machine turns each denial into a SUPL request for that handle |
| AgpsStateMachine.AgpsStateMachine.AddSubscriber | gps/gnss/Agps.cpp:398-417 | appended at the end unless the handle is in the list |
| AgpsStateMachine.AgpsStateMachine.DeleteSubscriber | gps/gnss/Agps.cpp:419-436 | erases every subscriber with the handle and keeps the order of the rest |
| AgpsStateMachine.AgpsStateMachine.GetSubscriber | gps/gnss/Agps.cpp:472-485 | the first subscriber with the handle |
| AgpsStateMachine.AgpsStateMachine.GetFirstActiveSubscriber | gps/gnss/Agps.cpp:487-500 | the first active subscriber |
| AgpsStateMachine.AgpsStateMachine.AnyActiveSubscribers | gps/gnss/Agps.cpp:438-448 | whether some subscriber is active |
| AgpsStateMachine.AgpsStateMachine.NotifyEventToSubscriber | gps/gnss/Agps.cpp:351-386 | one report by event and machine kind, and the subscriber deleted when asked (652-695 for the data-service machine) |
| AgpsStateMachine.AgpsStateMachine.NotifyAllSubscribers | gps/gnss/Agps.cpp:316-349 | the erase loop notifies the chosen subscribers in order and deletes just these when asked |
| AgpsStateMachine.AgpsStateMachine.RequestOrReleaseDataConn | gps/gnss/Agps.cpp:583-650 | the base machine asks the framework (296-314), the data-service machine its client; only a started call counts as success |
| AgpsStateMachine.AgpsStateMachine.DSStartCall | gps/gnss/Agps.cpp:616-647 | a busy engine is retried within the bound and then falls back, an unsupported one falls back at once |
| AgpsStateMachine.AgpsStateMachine.ProcessSubscribe | gps/gnss/Agps.cpp:72-113 | list, state, retries and everything sent become those of the request step, of which the lemmas of `Agps` speak, and the invariant of the machine's kind is kept |
| AgpsStateMachine.AgpsStateMachine.ProcessUnsubscribe | gps/gnss/Agps.cpp:116-178 | the same for the release of a listed subscriber, with the four ends it can have |
| AgpsStateMachine.AgpsStateMachine.ProcessGranted | gps/gnss/Agps.cpp:180-201 | the same for the grant, which is ignored unless PENDING |
| AgpsStateMachine.AgpsStateMachine.ProcessReleased | gps/gnss/Agps.cpp:203-248 | the same for the end of the connection, which the data-service machine takes for a denial while PENDING (523-538) |
| AgpsStateMachine.AgpsStateMachine.ProcessDenied | gps/gnss/Agps.cpp:250-290 | the same for a denial, which ends RELEASING as a release does |
| AgpsStateMachine.AgpsStateMachine.DropAllSubscribers | gps/gnss/Agps.cpp:502-513 | the list is emptied and nothing is reported |
| AgpsStateMachine.NotifyStep | gps/gnss/Agps.cpp:324-348 | notifying and erasing one subscriber at a time gives the outcome of notifying the list at once |
| AgpsStateMachine.AgpsManager.RequestATL | gps/gnss/Agps.cpp:770-796 | by the type of the request, which machine is stepped (739-768) and whether the subscriber waits for the close; the others are left, and without the machine the open fails |
| AgpsStateMachine.AgpsManager.FindHolder | gps/gnss/Agps.cpp:805-817 | the first of the AGNSS, the internet and the data-service machine that has the handle, and its place in the list |
| AgpsStateMachine.AgpsManager.ReleaseATL | gps/gnss/Agps.cpp:798-830 | a release steps the first machine that knows the handle and leaves the others, or fails |
| AgpsStateMachine.AgpsManager.HandleModemSSR | gps/gnss/Agps.cpp:887-912 | all machines lose their subscribers and keep their state, nothing is reported, and the data-service client is stopped, closed, released and started anew where it is used |
| Tracking.GnssAdapter.SmallestInterval | gps/gnss/GnssAdapter.cpp:1506-1512 | the search with size 0 for unset returns options of a session with the smallest interval, unset exactly without other sessions |
| Tracking.GnssAdapter.StartTrackingMultiplex | gps/gnss/GnssAdapter.cpp:1498-1521 | calls the engine exactly when no other session needs an interval as small; after success the engine serves the old sessions and the new one if and only if it was called or served the old ones before; a failed call leaves it |
| Tracking.GnssAdapter.MsgStartTracking | gps/gnss/GnssAdapter.cpp:1474-1489 | from any state of the engine: a valid start calls it exactly when no other session needs an interval as small, with its own options, and fails exactly when that call fails; it is then at the minimum if and only if it was before or the call succeeded; the session is saved exactly on success; rejected input calls nothing |
| Tracking.GnssAdapter.UpdateTrackingMultiplex | gps/gnss/GnssAdapter.cpp:1646-1682 | the same for a changed session, with the exact condition for a call: no other session needs an interval as small as both the old and the new one |
| Tracking.GnssAdapter.MsgUpdateTracking | gps/gnss/GnssAdapter.cpp:1622-1639 | the same for new options, with the exact condition for a call and the options it is made with: the new ones where they are the smallest, else the smallest of the others |
| Tracking.GnssAdapter.StopTrackingMultiplex | gps/gnss/GnssAdapter.cpp:1724-1755 | the same for a session that ends, with the exact condition for a call: no other session needs an interval as small |
| Tracking.GnssAdapter.MsgStopTracking | gps/gnss/GnssAdapter.cpp:1704-1717 | the same for a stop: the engine is stopped for the only session, restarted with the smallest of the others where that moves the minimum, and else not called |
| Tracking.GnssAdapter.StopClientSessions | gps/gnss/GnssAdapter.cpp:1143-1157 | the sessions of the client that remain are as many as engine calls failed, so none when all succeeded; sessions of other clients remain as they are; the engine is at the minimum if and only if it was before or a call succeeded |
| Tracking.GnssAdapter.RestartSessions | gps/gnss/GnssAdapter.cpp:1222-1245 | one start call with options of a session of the smallest interval if there is a session, and none without; the engine is at the minimum afterwards if and only if it was before or that call succeeded |
| Tracking.GnssAdapter.StartTracking | gps/gnss/GnssAdapter.cpp:1524-1542 | one engine call; failure leaves the engine as it was |
| Tracking.GnssAdapter.StopTracking | gps/gnss/GnssAdapter.cpp:1758-1771 | one engine call; failure leaves the engine as it was |
| Tracking.StartKeepsSmallest | gps/gnss/GnssAdapter.cpp:1505-1517 | a session that asks for no less than the minimum leaves the engine right or wrong as it was |
| Tracking.UpdateKeepsSmallest | gps/gnss/GnssAdapter.cpp:1655-1678 | so does a changed session that neither had nor gets an interval below the others' |
| Tracking.StopKeepsSmallest | gps/gnss/GnssAdapter.cpp:1733-1751 | and so does the end of a session that did not alone have the minimum |
| Tracking.JoinedSmallest | gps/gnss/GnssAdapter.cpp:1655-1678 | the minimum with a session is the smaller of its interval and the minimum of the others |
| Tracking.ModeMayBeStale | gps/gnss/GnssAdapter.cpp:1748-1751 | on a tie no call is made and the engine can keep the mode of a session that is gone |
| Odcpi.CallbacksAreThrottled | gps/gnss/GnssAdapter.cpp:2558-2601 | in every run, between two framework callbacks the timer expires, unless the later one upgrades a stored plain request to an emergency |
| Odcpi.CallbackBudget | gps/gnss/GnssAdapter.cpp:2558-2601 | in every run there are at most one callback, one more for every expiry and one more for every upgrade |
| Odcpi.ActiveRequestIsTimed | gps/gnss/GnssAdapter.cpp:2682-2695 | in every reachable state an active request has an active timer |
| Odcpi.ActiveRequestHasCallback | gps/gnss/GnssAdapter.cpp:2558-2561 | in every run a request is active only after the callback was set, and an expiry calls a null callback only after it was set to null |
| Odcpi.NullCallbackIsCalled | gps/gnss/GnssAdapter.cpp:2689-2691 | a run in which that happens |
| Odcpi.TimerRunsUntilExpiry | gps/gnss/GnssAdapter.h:55-69 | after a callback the timer stays active until it expires |
| Odcpi.StateFollowsHistory | gps/gnss/GnssAdapter.cpp:2558-2601 | over every run: the callback is there when the framework set it last, a request is active when the last of accepted starts, accepted stops and modem restarts is a start, and the timer runs when a start, or an expiry during a request, set it since it last expired |
| Odcpi.CallbackFollowsHistory | gps/gnss/GnssAdapter.cpp:2558-2601 | over every run and for every event, from the history alone: a start is handed on when the timer is off or when it is an emergency after none, an expiry hands something on exactly during a request, and nothing else does |
| Odcpi.ExpiryRepeatsLastStart | gps/gnss/GnssAdapter.cpp:2689-2691 | what an expiry hands on is the last accepted start |
| Odcpi.NothingAfterStop | gps/gnss/GnssAdapter.cpp:2593-2597 | after a stop or a modem restart nothing is handed on before the next accepted start |
| Odcpi.ExpiryWithoutRequestStopsTimer | gps/gnss/GnssAdapter.cpp:2692-2694 | an expiry without a request leaves the timer off |
| Odcpi.StoredFollowsHistory | gps/gnss/GnssAdapter.cpp:2590 | the stored request is an emergency exactly when the last accepted start was one |
| Odcpi.TimerRepeatsLastStart | gps/gnss/GnssAdapter.cpp:2590 | the stored request is the last accepted start |
| Odcpi.AlternatingRequestsAreNotThrottled | gps/gnss/GnssAdapter.cpp:2576-2590 | n plain and n emergency requests in turn make n callbacks without an expiry, for every n |
| Odcpi.OdcpiHandler.ReportOdcpiRequest | gps/gnss/GnssAdapter.cpp:2558-2601 | the two flags, the stored request and the callback list become those of the report step, of which `CallbacksAreThrottled` speaks |
| Odcpi.OdcpiHandler.OdcpiTimerExpire | gps/gnss/GnssAdapter.cpp:2682-2695 | the same for the expiry: a repeated callback, to null or not, and a running timer, or a stopped one |
| Odcpi.OdcpiHandler.RestartSessions | gps/gnss/GnssAdapter.cpp:1226-1227 | the request is no longer active and the timer runs on |
| Odcpi.OdcpiHandler.InitOdcpi | gps/gnss/GnssAdapter.cpp:2621-2623 | the callback is set, or unset by null, and nothing else changes |
| SystemStatusOsObserver.IndexFollowsHistory | gps/core/SystemStatusOsObserver.cpp:91-292 | over every run both maps are exact inverses without empty entries, hold what the last operation on each pair says, and the items with an entry are those some client wants |
| SystemStatusOsObserver.SubscribeKeepsInverse | gps/core/SystemStatusOsObserver.cpp:101-104 | adding to both maps keeps them inverse and adds the items as keys |
| SystemStatusOsObserver.UnsubscribeKeepsInverse | gps/core/SystemStatusOsObserver.cpp:222-230 | trimming the second map by what the first one lost keeps them inverse |
| SystemStatusOsObserver.UnsubscribeAllKeepsInverse | gps/core/SystemStatusOsObserver.cpp:261-267 | dropping a client from both maps keeps them inverse |
| SystemStatusOsObserver.UpdateKeepsInverseIff | gps/core/SystemStatusOsObserver.cpp:151-172 | replacing a subscription keeps the maps inverse if and only if the client had none |
| SystemStatusOsObserver.ClientsAreServed | gps/core/SystemStatusOsObserver.cpp:319-326 | the clients found through the second map are those with an updated item in the first |
| SystemStatusOsObserver.ArrivalsAreCached | gps/core/SystemStatusOsObserver.cpp:309-317 | over whole vectors, by index: an item is to be sent if and only if some entry for it has an effect, a first arrival when the factory makes it and a later one when the copy changes something; it is cached with the value of the last such entry, and nothing else changes |
| SystemStatusOsObserver.OnlyUpdatedItemsChange | gps/core/SystemStatusOsObserver.cpp:541-572 | after a notification the cache holds the updated items besides the old ones, and the others are as they were |
| SystemStatusOsObserver.NullItemsChangeNothing | gps/core/SystemStatusOsObserver.cpp:347-356 | any number of null entries in front changes neither cache nor updates |
| SystemStatusOsObserver.SystemStatusOsObserver.SetSubscriptionObj | gps/core/SystemStatusOsObserver.cpp:62-86 | all items with a client are subscribed to and then requested, and the framework's list is then exact unless it held another item before |
| SystemStatusOsObserver.SystemStatusOsObserver.HandleSubscribeReq | gps/core/SystemStatusOsObserver.cpp:91-138 | exactly the pairs of client and items are added, index and framework list stay exact, the items nobody wanted before are subscribed to or requested, as asked, in one call, and the client gets what is cached of the items in one call |
| SystemStatusOsObserver.SystemStatusOsObserver.HandleUnsubscribeReq | gps/core/SystemStatusOsObserver.cpp:212-252 | exactly these pairs are taken out; index and framework list stay exact; the items nobody wants any more are unsubscribed in one call |
| SystemStatusOsObserver.SystemStatusOsObserver.HandleUnsubscribeAllReq | gps/core/SystemStatusOsObserver.cpp:254-292 | exactly the pairs of the client are taken out; index and framework list stay exact; the items nobody wants any more are unsubscribed in one call |
| SystemStatusOsObserver.SystemStatusOsObserver.HandleUpdateSubscriptionReq | gps/core/SystemStatusOsObserver.cpp:141-210 | the client map is right, the index is still valid if and only if the client had no subscription, and only items new to the client are sent |
| SystemStatusOsObserver.SystemStatusOsObserver.SendCachedDataItems | gps/core/SystemStatusOsObserver.cpp:513-539 | one call with exactly the cached ones of the items, none without |
| SystemStatusOsObserver.SystemStatusOsObserver.UpdateCache | gps/core/SystemStatusOsObserver.cpp:541-572 | not accepted changes nothing; accepted and not cached is stored and reported exactly if the factory makes it; accepted and cached is replaced and reported exactly if the copy changes it |
| SystemStatusOsObserver.SystemStatusOsObserver.ClientsOfItems | gps/core/SystemStatusOsObserver.cpp:319-326 | the union of the entries of the items |
| SystemStatusOsObserver.SystemStatusOsObserver.ItemsForClient | gps/core/SystemStatusOsObserver.cpp:328-338 | erasing in a loop leaves the intersection |
| SystemStatusOsObserver.SystemStatusOsObserver.HandleNotify | gps/core/SystemStatusOsObserver.cpp:309-342 | as a naive scan of the vector and the clients would: every client that wants an item changed by some entry gets one call with exactly these items and their cached values, and no other client is called |
| LocUnorderedSetMap.LocUnorderedSetMap.Add | gps/utils/LocUnorderedSetMap.h:143-155 | the entry is extended, or made unless the set is empty, and only then reported as new |
| LocUnorderedSetMap.LocUnorderedSetMap.AddAll | gps/utils/LocUnorderedSetMap.h:160-171 | the entries of all keys are extended, and exactly the new keys returned |
| LocUnorderedSetMap.LocUnorderedSetMap.TrimEntry | gps/utils/LocUnorderedSetMap.h:80-88 | the entry loses the values and is erased exactly when nothing is left |
| LocUnorderedSetMap.LocUnorderedSetMap.TrimOrRemove | gps/utils/LocUnorderedSetMap.h:127-139 | all entries of the keys lose the values; the keys of those left empty and the values that were taken out come back |
| LocUnorderedSetMap.LocUnorderedSetMap.Update | gps/utils/LocUnorderedSetMap.h:173-187 | the entry is replaced; what it had in common with the new values comes back, and they keep the rest |
| LocUnorderedSetMap.LocUnorderedSetMap.GetKeys | gps/utils/LocUnorderedSetMap.h:110-117 | the keys of the map |
| LocUnorderedSetMap.LocUnorderedSetMap.Remove | gps/utils/LocUnorderedSetMap.h:119-121 | the entry goes, and whether there was one |
| LocUnorderedSetMap.TrimSet | gps/utils/LocUnorderedSetMap.h:44-51 | difference, and the removed values added to those gone |
| LocUnorderedSetMap.RemoveAndReturnInterset | gps/utils/LocUnorderedSetMap.h:56-70 | the intersection leaves both sets and comes back |
| LocIpc.RoundTripIffClean | gps/utils/LocIpc.cpp:97-138 | for every message and every message before it: what is sent (186-222) is received as it was, and nothing else, if and only if it is not empty and the buffer neither completes a reserved word nor lengthens the header |
| LocIpc.SessionRoundTripIffClean | gps/utils/LocIpc.cpp:97-138 | a session of any length is received message by message, all of it and in order, if and only if every message is clean after the one before |
| LocIpc.UncleanLosesSession | gps/utils/LocIpc.cpp:97-138 | after a message that is not clean no further messages, whatever they are, make the whole session arrive |
| LocIpc.DeliveriesNeedDatagrams | gps/utils/LocIpc.cpp:97-138 | whatever datagrams are queued, the messages delivered from them could not be sent in more |
| LocIpc.AbortStops | gps/utils/LocIpc.cpp:110-114 | after every clean session the abort message stops the listener, whatever the buffer holds and whatever follows, with exactly the session delivered |
| LocIpc.StopsIff | gps/utils/LocIpc.cpp:110-114 | after a clean session a datagram that is not empty stops the listener there if and only if the buffer with it begins with the abort word |
| LocIpc.StopNeedsAbortBytes | gps/utils/LocIpc.cpp:110-114 | over any queue the listener is stopped only if some datagram agrees with the abort word as far as it goes |
| LocIpc.FailsIff | gps/utils/LocIpc.cpp:126-136 | after a clean session and a header without a stale digit the listener gives up there if and only if an empty datagram comes before the announced bytes are there |
| LocIpc.FillFailsIff | gps/utils/LocIpc.cpp:126-136 | the reading of a long message fails exactly at an empty datagram that comes too soon |
| LocIpc.EmptyIsSkipped | gps/utils/LocIpc.cpp:106-108 | an empty datagram between messages is as if it had not been sent |
| LocIpc.AfterSession | gps/utils/LocIpc.cpp:97-138 | after a clean session the listener goes on as one that holds its last message |
| LocIpc.MessageIsSentAs | gps/utils/LocIpc.cpp:190-218 | up to 8192 bytes go as one datagram; more go as the reserved word with the decimal length and then the data in datagrams of 8192 bytes but for the last |
| LocIpc.ChunkAt | gps/utils/LocIpc.cpp:206-218 | which part of the data the k-th datagram is |
| LocIpc.FreshListener | gps/utils/LocIpc.cpp:98-102 | to a listener that just started every message is clean that is not empty and, if short, does not begin with a reserved word |
| LocIpc.StaleDigitLosesMessage | gps/utils/LocIpc.cpp:101 | every long message is lost behind some short message, though each would be received alone |
| LocIpc.DecimalRoundTrip | gps/utils/LocIpc.cpp:199-200 | printing and reading a number are inverse |
| LocIpc.LengthIsReadIffNoDigitFollows | gps/utils/LocIpc.cpp:122-123 | the scan returns the printed length exactly when no digit follows it in the buffer, and never less |
| LocIpc.MoreDigitsMeanMore | gps/utils/LocIpc.cpp:122-123 | further digits make a positive number larger |
| LocIpc.FillReadsChunks | gps/utils/LocIpc.cpp:126-130 | the chunks of a message (206-218) fill its length again and leave the datagrams behind it |
| LocIpc.FillWaitsForMore | gps/utils/LocIpc.cpp:126-130 | with a longer length the reading does not end with the chunks |
| LocIpc.HeaderIsRead | gps/utils/LocIpc.cpp:115-125 | after a header the rest is read by the length the buffer shows, which is the sent one exactly without a stale digit |
| LocIpc.ShortMessage | gps/utils/LocIpc.cpp:115-118 | a clean short message is received first whatever follows; one that is not clean is not received |
| LocIpc.LongMessage | gps/utils/LocIpc.cpp:119-132 | a clean long message is received first whatever follows; one that is not clean leaves the listener waiting |
| LocIpc.SendData | gps/utils/LocIpc.cpp:186-222 | sends the datagrams of the message and returns true, or stops at the call that fails and returns false |
| LocIpc.LocIpcListener.ReadLong | gps/utils/LocIpc.cpp:119-130 | overwriting the buffer from the front fills it from the datagrams in order, waits, or gives up at an empty one |
| LocIpc.LocIpcListener.Turn | gps/utils/LocIpc.cpp:100-137 | one turn of the loop delivers what remains to be delivered, no more and no less |
| LocIpc.LocIpcListener.StartListeningBlocking | gps/utils/LocIpc.cpp:97-138 | the loop over the buffer field delivers what the value model delivers |

## Left out

- Sockets, epoll, timerfd, `mmap`, logging, HIDL wrappers: the kernel timer is an optional deadline and a polled bit, a socket a queue of datagrams.
- C++ memory: freed nodes and subscribers, use of an erased iterator (`gps/utils/LocUnorderedSetMap.h:59-67` and 135-136 are modelled as intended), `delete` and reference counts.
- BmSearch: asks for a non-empty pattern, because the source builds the tables from it before its test for the empty one; 32-bit overflow for texts near 2^31 bytes is not modelled.
- FindsFirstIffBorderFreeOrUniform: is about NUL-free patterns; for patterns with NUL the exact condition is the one of `FindsFirstIffSafe`, on the table entries.
- The timer protocol has one container; the second one of the source shares only the two threads.
- `start` and `stop` of a client are single steps, because they run under its lock; that a callback outlives the step that stops the client, and that a client may be deleted meanwhile, is left out.
- Deadlines are positive, normalised and below 2^31 seconds, and a time read from the clock does not go back.
- Agps.EveryHandleGetsItsReports: is about the base machine; the data-service machine hands a failed subscriber to SUPL instead of reporting.
- AgpsStateMachine: APN, bearer and the creation of the machines are left out; the machines are given to the manager.
- The modem's reports of opened and closed connections (`gps/gnss/Agps.cpp:832-885`) are the events of the machines; that the manager picks the machine for them by type, as for a request, is left out.
- The answer of the data-service client is a parameter of each event; the message queue between a retry timer and the request it posts is left out: `Retry` runs them together.
- MsgStartTracking: takes the session id as given and fresh; the counter that makes ids, and its wrap after 2^32, is left out.
- Tracking assumes the base ULP proxy, which leaves every call to the engine, and leaves out the commands without arguments that go round the multiplexer.
- OdcpiHandler.OdcpiTimerExpire: does not say what follows after a null callback was called; a late timer event after `stop` is an ordinary expiry.
- SetSubscriptionObj: an object that is replaced keeps the list it was told.
- HandleUpdateSubscriptionReq: beyond telling when the index survives, nothing is promised about an index that did not.
- `turnOn` and `turnOff`: their message goes to the observer itself, so the count they keep describes nothing.
- SendData: a datagram is sent whole or the call fails, and messages of several senders are not interleaved.
- StartListeningBlocking: a receive call that fails is left out, as are announced lengths for which the buffer cannot be allocated.
- NI response threads, geofence maps, NMEA decoding, enum and flag conversions, lights, init: single-branch or finite facts, or partners outside this repository.
