# Heating monitor: a verified model of its stateful cores

The repository is the firmware of a Matter heating monitor for the ESP32, with the web pages it serves.
This project models the parts of it whose correctness depends on state kept over many steps, and proves
what they promise on every input, run and interleaving.

Each part comes as a specification (data, and functions that say what one step does), proofs about it,
and, where the source updates objects in place, an object form whose methods are proved to take exactly
those steps.

| part | files | source |
|---|---|---|
| Subscription timeline of the Diagnostics page | `Timeline`, `TimelineProofs`, `TimelineExact`, `TimelineFailures`, `TimelineDay`, `TimelineBuilder` | `Diagnostics.tsx` |
| Subscription log on the card, which the page reads | `SubscriptionLog`, `SubscriptionSent`, `SubscriptionLogProofs`, `SubscriptionLogger` | `subscription_log.cpp` |
| mDNS browse and resolve | `Dnssd`, `DnssdLedger`, `DnssdProofs`, `DnssdTruth`, `DnssdAnswers`, `DnssdService` | `ESP32DnssdImpl.cpp`, `.h` |
| Wi-Fi fail-safe backup | `FailSafe`, `FailSafeProofs`, `FailSafeCalls`, `FailSafeSuccess`, `FailSafeDriver` | `NetworkCommissioningDriver.cpp` |
| Commissioning handshake | `Commissioning`, `CommissioningProofs`, `CommissioningHeard`, `CommissioningTasks` | `app_main.cpp`, `pairing_command.cpp` |
| Wi-Fi station state machine | `Station`, `StationProofs`, `StationAlternation`, `StationSteps`, `StationManager` | `ConnectivityManagerImpl_WiFi.cpp` |
| Streaming headers of a delta update | `DeltaOta`, `DeltaOtaProcessor` | `OTAImageProcessorImpl.cpp` |
| Saving a room | `RoomSave`, `RoomShown`, `RoomRequests`, `RoomForm` | `EditRoom.tsx` |
| Listing the rooms | `RoomListing` | `app_main.cpp` |
| mDNS packet filter | `PacketFilter` | `ESP32EndpointQueueFilter.h` |

`Options` and `Ascii` hold what several parts share. `dafny verify dfyconfig.toml` checks everything.

## What turned out to be false

Some properties that look natural do not hold of the code.

* A timeline's segments can overlap when a boot's last sign of life is earlier than the node's last event
  (`TimelineProofs.OutOfOrderOverlaps` is such a log). For a node never removed the segments are in order and
  disjoint exactly when the instants at which its state changes do not go on and later go back
  (`TimelineExact.OverlapsExactly`). For every log, removed nodes included, that is so exactly when no stretch
  with a state begins before an earlier one has ended (`LaidExactly`), and the segments also show the right
  state everywhere exactly when no stretch goes on over an earlier one even while the state is unknown
  (`DrawnExactly`). `SubscriptionLogProofs.DayFileIsWellFormed` says exactly when the firmware's own files are
  in order.
* The dates that the firmware writes can go backwards. An event recorded before the clock was set can be dated
  one second late, or early by the seconds that pass between two reads of the clocks:
  `SubscriptionLogProofs.DatedFromUptime` gives the exact error and when it is nothing, `DatesCanGoBackwards`
  and `DatesCanBeEarly` are examples. Besides, an event's clock is read before the mutex is taken, so that two
  events can be queued in the other order (subscription_log.cpp:71-77), and a flush reads its own after
  letting the mutex go, so that an event recorded in between is dated before the sign of life written ahead
  of it (212-218).
* A connect callback can be told success though another network was joined: the error of a failed write to
  flash is overwritten by that of starting the timer, so the callback goes on waiting and the next association
  tells it success. `FailSafeSuccess.SuccessExactly` says when the network in flash is the one asked for;
  `SuccessForAnother` and `SuccessAfterRevert` are cases in which it is not.
* Not every connect callback is called: exactly a further connect call forgets the one that is waiting
  (`FailSafeProofs.WhoForgetsTheCallback`).
* A configuration written to flash comes back unless it has zero bytes, or credentials without an SSID, and
  exactly then does not (`FailSafeProofs.StationRoundTrip`, `ProvisioningSurvivesPowerLoss`).
* A revert can report success and delete its backup with another configuration in flash, which the next start
  loads. It outlives a restart exactly when `FailSafeProofs.RevertHolds` is true of the state before it: the
  settled configuration is in flash already and is not written over, or it is written and flash can hold it
  (`RevertOutlivesRestart`; `CutRevertFinishes` for a power loss at any step). A write that fails forgets the
  network (`FailedWriteForgets`). A changed key that was never committed comes back when the device is on the
  network of that name while it reverts, because the write is skipped (`UncommittedKeyComesBack`).
* Established and Lost do not always alternate: a lost connection can be announced that was never announced
  as established (`StationProofs.LostWithoutEstablished`). They alternate on exactly the runs in which no link
  that is found up during an attempt, unwanted, and taken down is later found down
  (`StationAlternation.AlternationHolds`).
* A patch header that arrives in pieces is checked correctly but fed to the patcher as well; the patcher is
  fed what it should be exactly when the first block with data holds the whole header
  (`DeltaOta.FedIsTheRest`, `SplitHeaderIsFed`).

## Model

| member | source | states |
|---|---|---|
| TimelineProofs.TimelineRefinesPointReplay | firmware/html_app/src/Diagnostics.tsx:85-192 | With the node's changes in order, at every instant of the window the segment holding it has the state of the last change effective by then (retroactive off and end of record included), none holds it iff that state is unknown or removed, and segments are ordered, non-empty, disjoint and inside the window |
| TimelineProofs.WellFormedIsInOrder | firmware/html_app/src/Diagnostics.tsx:174-188 | A log whose effective times never go backwards puts every node's changes in order |
| TimelineProofs.TimeIsConserved | firmware/html_app/src/Diagnostics.tsx:119-144 | For a node never removed, up, down and off lengths add up to the end minus the first known instant |
| TimelineProofs.TotalsAndOutages | firmware/html_app/src/Diagnostics.tsx:119-144 | For every log, the totals are the exact sums of the segments, and the outages are the down segments one for one, in order, with equal ends, adding up to downSeconds |
| TimelineProofs.DropsAndFailuresOf | firmware/html_app/src/Diagnostics.tsx:157-169 | For every log, drops never exceed the subscriptions opened for the node, and the failure count is exact |
| TimelineProofs.DropsAreExact | firmware/html_app/src/Diagnostics.tsx:157-162 | For every log, drops is the number of the node's terminations at which its last change was to up |
| TimelineProofs.FailuresLieWithinOutages | firmware/html_app/src/Diagnostics.tsx:132-169 | In order and inside the window, every failure listed under an outage was reported for the node and happened within the outage |
| TimelineFailures.OutagesExactly | firmware/html_app/src/Diagnostics.tsx:132-169 | For every log, the outages are the stretches of positive length in which the node is down, each with exactly the failures reported for the node during it, with their times and errors, in the order of the log |
| TimelineFailures.EveryFailureIsListed | firmware/html_app/src/Diagnostics.tsx:163-169 | For every log, read in order the outages list every failure reported for the node, once and in the order of the log, save those of stretches that have no length |
| TimelineFailures.FailureIsListed | firmware/html_app/src/Diagnostics.tsx:163-169 | In order and inside the window, each failure reported is listed with its time and error under an outage that holds its time, unless the stretch it was reported in closed at the instant it opened |
| TimelineProofs.OtherNodesDoNotMatter | firmware/html_app/src/Diagnostics.tsx:93-191 | For every log, replaying only the broadcast events and the node's own gives the same timeline |
| TimelineProofs.OutOfOrderOverlaps | firmware/html_app/src/Diagnostics.tsx:143-178 | A concrete log with lastAlive before the last event draws overlapping segments |
| TimelineExact.SegmentsAreStretches | firmware/html_app/src/Diagnostics.tsx:119-191 | For every log, in order or not, the segments drawn are the stretches of positive length and known state between the changes of state and the end of the view |
| TimelineExact.LaidExactly | firmware/html_app/src/Diagnostics.tsx:119-191 | For every log, the segments are in order, disjoint and inside the window iff no stretch with a state begins before an earlier one has ended |
| TimelineExact.OverlapsExactly | firmware/html_app/src/Diagnostics.tsx:119-191 | For a node never removed, that is so iff the instants at which its state changes do not go on and later go back |
| TimelineExact.DrawnExactly | firmware/html_app/src/Diagnostics.tsx:119-191 | For every log, the segments are in order, disjoint and show at every instant the state of the last change of state by then, iff no stretch begins before an earlier one has ended nor goes on over it while the state is unknown |
| TimelineExact.KeptShowsTheSame | firmware/html_app/src/Diagnostics.tsx:121-123 | In order, leaving out the changes to the state the node is in already shows the same states |
| TimelineDay.EventIsDrawn | firmware/html_app/src/Diagnostics.tsx:146-172 | In order, from an event on and until the next that concerns the node or a silence, the node is drawn up if it was subscribed, not at all if it was removed, and down otherwise |
| TimelineDay.BootIsDrawn | firmware/html_app/src/Diagnostics.tsx:173-178 | In order, every node is drawn off from the last sign of life before a boot, or from midnight if none is known, up to the boot |
| TimelineDay.SilenceIsDrawn | firmware/html_app/src/Diagnostics.tsx:182-190 | A record that stops more than three minutes before the end of the view is drawn off from there, for every node the log speaks of and has not removed; any other record says nothing new |
| TimelineDay.DayIsCovered | firmware/html_app/src/Diagnostics.tsx:85-92 | A day whose file starts at midnight is drawn whole for every node not removed: the times add up to the length of a past day, and for today to the time since midnight |
| TimelineBuilder.Node.SetState | firmware/html_app/src/Diagnostics.tsx:119-144 | The record updated in place becomes exactly the specified one: stretch closed, totals, outage closed and opened |
| TimelineBuilder.Apply | firmware/html_app/src/Diagnostics.tsx:146-180 | One event takes every node's record one specified step, and leaves the others as they are |
| TimelineBuilder.BuildTimelines | firmware/html_app/src/Diagnostics.tsx:85-192 | The builder returns, for every known node in the order of first mention, the timeline that the results above are about, over a window that ends at midnight or now |
| TimelineBuilder.KnownNodesAreDistinct | firmware/html_app/src/Diagnostics.tsx:93-117 | Every node listed or named by the log gets exactly one timeline, and no other does, in the order of first mention, the listed ones first |
| SubscriptionLogProofs.EveryFileIs | firmware/main/storage/subscription_log.cpp:105-263 | On every run of flushes and reboots in which a boot is recorded first, whatever the dates, each file is the nodes up after what was written before its first entry, or none if that is the boot after a reboot, and then everything dated that day in the order it was written |
| SubscriptionLogProofs.UpIsLastUp | firmware/main/storage/subscription_log.cpp:105-128 | The nodes remembered as subscribed are exactly those whose last change, replayed by the page, is to up |
| SubscriptionLogProofs.DayShowsHistory | firmware/main/storage/subscription_log.cpp:149-263 | Whatever the dates, a day's file alone shows, for every node and instant, what replaying the history shows: what was written before its first entry, as of the start of the day, and then its own entries |
| SubscriptionLogProofs.HistoryInOrder | firmware/main/storage/subscription_log.cpp:195-263 | When dates never go backwards, that is the whole history up to the end of the day |
| SubscriptionLogProofs.FileIsDrawn | firmware/main/storage/subscription_log.cpp:195-333 | Whatever the dates of the history, a day whose log meets the page's requirement is drawn as the history says, and as off from the last sign of life if the record falls silent |
| SubscriptionLogProofs.DayIsDrawn | firmware/main/storage/subscription_log.cpp:195-333 | From the firmware's writer through its reader to the page, for dates in order and whole flushes, days that fall silent included: the day is drawn as the whole history says, and as off from the last sign of life on, given that nothing was recorded after it |
| SubscriptionLogProofs.DayFileIsWellFormed | firmware/main/storage/subscription_log.cpp:292-333 | The times sent for a day never go backwards, and the page's requirement holds iff the record does not fall silent or nothing was recorded after the last sign of life |
| SubscriptionLogProofs.DatedFromUptime | firmware/main/storage/subscription_log.cpp:92-99 | With the clock and then the uptime read at two instants, the date is late by the second that the microseconds carry and early by the seconds that begin between the reads, and right iff the two agree |
| SubscriptionLogProofs.DatesCanGoBackwards | firmware/main/storage/subscription_log.cpp:92-99 | Two concrete events a microsecond apart that are dated in the wrong order |
| SubscriptionLogProofs.DatesCanBeEarly | firmware/main/storage/subscription_log.cpp:218-219 | A concrete event dated one second early, when a second begins between the two reads |
| SubscriptionSent.SentIs | firmware/main/storage/subscription_log.cpp:283-333 | The page is sent one event for each entry that is one, in order, with its date, kind and node, an error iff it is a failure that has one, and for a boot the last sign of life before it; and the last sign of life of the file |
| SubscriptionLogger.Logger.Record | firmware/main/storage/subscription_log.cpp:65-90 | The ring holds what was waiting and the new event, less the oldest when it was full |
| SubscriptionLogger.Logger.Flush | firmware/main/storage/subscription_log.cpp:195-263 | With a card and a clock, the k-th waiting event goes to the file of its day, in order, with its own kind, node and error and its own date, or if it had none the one worked out from its uptime; then a sign of life; files only grow, a new one from a header; without a card only the subscribed nodes are kept up; without a clock nothing changes |
| SubscriptionLogger.FlushRecords | firmware/main/storage/subscription_log.cpp:195-263 | The specified flush writes one entry for each waiting event, field by field as it was recorded, and a sign of life, and each day's file gets exactly those of its day after what it had or after a header |
| SubscriptionLogger.LatestWait | firmware/main/storage/subscription_log.cpp:65-90 | On every run of records and flushes, what waits is the latest 256 of the events recorded since the last flush, and of those waiting at first if there has been none |
| SubscriptionLogger.Logger.Play | firmware/main/storage/subscription_log.cpp:54-263 | On every run of records and flushes, each flush writes the events waiting then as they were recorded, and the files hold all that was written, in order |
| SubscriptionLogger.FlushesAddUp | firmware/main/storage/subscription_log.cpp:195-263 | Flush after flush, the card holds what one uninterrupted writing of all the steps would leave |
| DnssdProofs.CalledExactlyOnce | firmware/external_platform/ESP32_custom/ESP32DnssdImpl.cpp:484-620 | Over every interleaving of any number of lookups, each accepted one has been called at most once, is listed iff it has not, and has been called once it has no query left; one not accepted is never called |
| DnssdAnswers.StartIsListed | firmware/external_platform/ESP32_custom/ESP32DnssdImpl.cpp:627-682 | A start is answered without error iff it makes a new lookup listed with its own pending queries; otherwise nothing is listed |
| DnssdAnswers.SettledIsCalled | firmware/external_platform/ESP32_custom/ESP32DnssdImpl.cpp:525-620 | On every run, a lookup whose queries have all notified has been called exactly once |
| DnssdAnswers.EveryBrowseIsAnswered | firmware/external_platform/ESP32_custom/ESP32DnssdImpl.cpp:315-384 | On every run, a browse started without error has been called exactly once when its query has notified, and if memory lasted with the services its query delivered |
| DnssdAnswers.EveryResolveIsAnswered | firmware/external_platform/ESP32_custom/ESP32DnssdImpl.cpp:484-620 | On every run, a resolve started without error has been called exactly once when its queries have notified, the address query included, and if memory lasted with what they delivered, or with an error if they delivered no address |
| DnssdProofs.BothPresentIsUnreachable | firmware/external_platform/ESP32_custom/ESP32DnssdImpl.cpp:589-600 | A lookup whose SRV or address query can still complete has no address result, so the branch for both present is never taken |
| DnssdProofs.FreedExactlyOnce | firmware/external_platform/ESP32_custom/ESP32DnssdImpl.h:75-139 | Every result node obtained is freed once or held by one lookup not called yet, shared SRV and address lists included, and a context's lists are freed only after its callback |
| DnssdTruth.EveryCallIsTruthful | firmware/external_platform/ESP32_custom/ESP32DnssdImpl.cpp:315-509 | On every run, what a callback is told is what the lookup's own queries delivered: host and port from the SRV query, text from the TXT query, addresses from the SRV query or else from the query for its host; a browse lists every node found and delegated; a failure for another reason than memory means that no address was delivered |
| DnssdTruth.RunTold | firmware/external_platform/ESP32_custom/ESP32DnssdImpl.cpp:525-620 | On every run, each listed context holds exactly what its own queries have delivered |
| DnssdTruth.RecordsStay | firmware/external_platform/ESP32_custom/ESP32DnssdImpl.cpp:511-530 | A query delivers once, what it delivered is on record as the network gave it, and no later step changes that |
| DnssdProofs.OnlyStarvedLookupsStarve | firmware/external_platform/ESP32_custom/ESP32DnssdImpl.cpp:315-620 | On every run in which allocations succeed, no lookup fails for the lack of memory |
| DnssdProofs.SpliceKeepsAll | firmware/external_platform/ESP32_custom/ESP32DnssdImpl.cpp:322-336 | Splicing the delegated services loses and duplicates no node, and one service is filled in for each |
| DnssdProofs.NextInv | firmware/external_platform/ESP32_custom/ESP32DnssdImpl.cpp:525-682 | Every start and completion keeps the accounting of handles, lists, calls and answers |
| DnssdProofs.RunInv | firmware/external_platform/ESP32_custom/ESP32DnssdImpl.cpp:525-682 | The accounting holds after every run |
| DnssdLedger.FinishLedger | firmware/external_platform/ESP32_custom/ESP32DnssdImpl.cpp:94-131 | Ending a lookup is one more call to it and frees all that it owned after that call |
| DnssdService.EspDnssd.AddQueryList | firmware/external_platform/ESP32_custom/ESP32DnssdImpl.cpp:51-63 | The context becomes the head of the linked list, or nothing changes when memory runs out |
| DnssdService.EspDnssd.FindMdnsQuery | firmware/external_platform/ESP32_custom/ESP32DnssdImpl.cpp:65-92 | Walking the list finds the first context that asked the query, or none if none did |
| DnssdService.EspDnssd.Unlink | firmware/external_platform/ESP32_custom/ESP32DnssdImpl.cpp:94-120 | The splice takes out exactly the context's node and leaves a proper list |
| DnssdService.EspDnssd.RemoveMdnsQuery | firmware/external_platform/ESP32_custom/ESP32DnssdImpl.cpp:94-131 | The node is taken out and the destructor frees the context's lists, a shared one once |
| DnssdService.Splice | firmware/external_platform/ESP32_custom/ESP32DnssdImpl.cpp:322-336 | The result is the delegated nodes reversed and then the query's own, and the counter is its length |
| DnssdService.FillServices | firmware/external_platform/ESP32_custom/ESP32DnssdImpl.cpp:339-378 | The fill loop stays inside the array and fills in every node's service |
| DnssdService.EspDnssd.OnBrowseDone | firmware/external_platform/ESP32_custom/ESP32DnssdImpl.cpp:315-384 | The browse is called with the services of all nodes and ended |
| DnssdService.EspDnssd.OnResolveDone | firmware/external_platform/ESP32_custom/ESP32DnssdImpl.cpp:484-509 | The resolve is called with what its results hold, or with the first error, and ended |
| DnssdService.EspDnssd.MdnsQueryDone | firmware/external_platform/ESP32_custom/ESP32DnssdImpl.cpp:525-620 | A completion takes the lists, contexts and history through exactly the specified step |
| DnssdService.EspDnssd.EspDnssdBrowse | firmware/external_platform/ESP32_custom/ESP32DnssdImpl.cpp:627-653 | No error is returned iff every allocation succeeded, and exactly then a new context is at the head of the list with its own pending query; a refusal lists nothing |
| DnssdService.EspDnssd.EspDnssdResolve | firmware/external_platform/ESP32_custom/ESP32DnssdImpl.cpp:655-682 | No error is returned iff every allocation succeeded, and exactly then a new context is at the head of the list with its own two pending queries; a refusal lists nothing |
| FailSafeProofs.EveryPointIsSafe | firmware/external_platform/ESP32_custom/NetworkCommissioningDriver.cpp:128-211 | At every point of every run with power losses anywhere: if the SSID key exists both keys do and hold the configuration of the last commit, revert or boot load; if not, staging is that configuration |
| FailSafeProofs.NewDeviceIsSafe | firmware/external_platform/ESP32_custom/NetworkCommissioningDriver.cpp:96-121 | A device as first switched on satisfies the safety property |
| FailSafeProofs.RevertRestores | firmware/external_platform/ESP32_custom/NetworkCommissioningDriver.cpp:136-175 | A revert after any sequence of add, update, remove and connect calls restores the last committed configuration, and a second revert changes nothing |
| FailSafeProofs.RevertSettles | firmware/external_platform/ESP32_custom/NetworkCommissioningDriver.cpp:136-175 | What a complete revert leaves: staging, both keys, and the configuration in flash |
| FailSafeProofs.CommitSettles | firmware/external_platform/ESP32_custom/NetworkCommissioningDriver.cpp:128-134 | A commit makes staging the configuration that later reverts restore and leaves no backup |
| FailSafeProofs.CutRevertFinishes | firmware/external_platform/ESP32_custom/NetworkCommissioningDriver.cpp:96-175 | A revert cut after any number of steps, then a start: the settled configuration is back iff the marker was not yet deleted or a condition on the state before the revert holds (what is in flash, which writes succeed, what flash can hold) |
| FailSafeProofs.RevertOutlivesRestart | firmware/external_platform/ESP32_custom/NetworkCommissioningDriver.cpp:136-175 | A complete revert outlives a restart iff that condition holds |
| FailSafeProofs.RevertFlash | firmware/external_platform/ESP32_custom/NetworkCommissioningDriver.cpp:155-166 | The writes of a revert leave the settled configuration in flash iff that condition holds |
| FailSafeProofs.UncommittedKeyComesBack | firmware/external_platform/ESP32_custom/NetworkCommissioningDriver.cpp:136-175 | Change the key, connect, do not commit, and revert while on that network: the revert reports success and the next start comes back with the uncommitted key |
| FailSafeProofs.FailedWriteForgets | firmware/external_platform/ESP32_custom/NetworkCommissioningDriver.cpp:136-175 | A revert whose write fails is followed by a start without the settled network |
| FailSafeProofs.CutRevertIsRerun | firmware/external_platform/ESP32_custom/NetworkCommissioningDriver.cpp:96-175 | While the marker is there, a revert cut anywhere and then any number of cut starts end where the revert would have |
| FailSafeProofs.CutBootIsCutRevert | firmware/external_platform/ESP32_custom/NetworkCommissioningDriver.cpp:96-121 | A start that loses power is a cut revert from what was loaded, so the exact condition applies to each start in turn |
| FailSafeProofs.BootWithBackup | firmware/external_platform/ESP32_custom/NetworkCommissioningDriver.cpp:96-121 | Starting with the marker present restores the settled configuration |
| FailSafeProofs.CutBootsKeepBackup | firmware/external_platform/ESP32_custom/NetworkCommissioningDriver.cpp:96-175 | Starts cut by power losses change nothing else while the marker is there |
| FailSafeProofs.StationRoundTrip | firmware/external_platform/ESP32_custom/NetworkCommissioningDriver.cpp:96-258 | Writing a network to flash and loading it gives it back iff it has no zero bytes and no credentials without an SSID |
| FailSafeProofs.ProvisioningSurvivesPowerLoss | firmware/external_platform/ESP32_custom/NetworkCommissioningDriver.cpp:182-360 | Add, connect, commit, power loss, start: the network comes back iff flash can hold it |
| FailSafeProofs.CallbacksToldOnce | firmware/external_platform/ESP32_custom/NetworkCommissioningDriver.cpp:272-360 | At every point of every run with power losses anywhere, no connect callback has been called twice and what was told stays told |
| FailSafeProofs.AnswerOfEachCommand | firmware/external_platform/ESP32_custom/NetworkCommissioningDriver.cpp:272-360 | Which command tells a callback what: success iff an association is reported, whichever network it is with, or the device is on a network of that name; an unknown network iff another one is staged; a failure of authentication iff the wait ran out after one of the five reasons that mean it, a network not found iff after that reason, another failure iff after any other |
| FailSafeCalls.AddDoes | firmware/external_platform/ESP32_custom/NetworkCommissioningDriver.cpp:182-199 | The status of adding a network, each iff its condition, what it stages and what it leaves of the backup |
| FailSafeCalls.RemoveDoes | firmware/external_platform/ESP32_custom/NetworkCommissioningDriver.cpp:201-211 | The status of removing a network, each iff its condition, what it stages and what it leaves of the backup |
| FailSafeCalls.ConnectTells | firmware/external_platform/ESP32_custom/NetworkCommissioningDriver.cpp:317-360 | A connect call leaves its callback waiting iff nothing refuses it, the device is not on that network and the timer starts; otherwise the callback is told at once, with which status, and none waits |
| FailSafeCalls.TimeoutDoes | firmware/external_platform/ESP32_custom/NetworkCommissioningDriver.cpp:282-315 | A wait that runs out blanks flash iff it can be cleared and tells the waiting callback, once; nothing else changes |
| FailSafeCalls.AssociationDoes | firmware/external_platform/ESP32_custom/NetworkCommissioningDriver.cpp:272-280 | An association tells the waiting callback success, once; nothing else changes |
| FailSafeCalls.DisconnectDoes | firmware/external_platform/ESP32_custom/NetworkCommissioningDriver.cpp:261-269 | A disconnect blanks flash iff it holds a network and can be cleared, so that a start loads none; staging and backup stay |
| FailSafeCalls.RevertAnswers | firmware/external_platform/ESP32_custom/NetworkCommissioningDriver.cpp:136-175 | A revert answers success iff there is no backup, or the device is on the network of that name, or every call that writes it back succeeds |
| FailSafeSuccess.SuccessExactly | firmware/external_platform/ESP32_custom/NetworkCommissioningDriver.cpp:317-360 | After a connect call whose timer starts, an association tells the callback success, and the network in flash is the one asked for iff a condition on the state before the call holds |
| FailSafeSuccess.ConnectLeaves | firmware/external_platform/ESP32_custom/NetworkCommissioningDriver.cpp:338-360 | A connect call that starts its timer leaves the callback waiting whether its writes succeeded or not |
| FailSafeSuccess.NamedConnectHolds | firmware/external_platform/ESP32_custom/NetworkCommissioningDriver.cpp:223-258 | For a network with a name the condition is that the old configuration was cleared and the new one written, or could not be cleared and is the one asked for |
| FailSafeSuccess.SuccessAtOnce | firmware/external_platform/ESP32_custom/NetworkCommissioningDriver.cpp:326-337 | On a network of the name asked for the callback is told success at once and flash is not written |
| FailSafeSuccess.SuccessForAnother | firmware/external_platform/ESP32_custom/NetworkCommissioningDriver.cpp:317-360 | Another network is added and connected with, the old one cannot be cleared, and the callback is told success when the device is back on the old one |
| FailSafeSuccess.SuccessAfterRevert | firmware/external_platform/ESP32_custom/NetworkCommissioningDriver.cpp:136-175 | A revert while a callback waits, and the next association, with the network put back, tells it success |
| FailSafeProofs.WhoForgetsTheCallback | firmware/external_platform/ESP32_custom/NetworkCommissioningDriver.cpp:317-360 | The command that leaves a waiting callback without an answer is exactly a further connect call |
| FailSafeDriver.ESPWiFiDriver.Init | firmware/external_platform/ESP32_custom/NetworkCommissioningDriver.cpp:96-121 | Start-up goes through exactly the specified states |
| FailSafeDriver.ESPWiFiDriver.CommitConfiguration | firmware/external_platform/ESP32_custom/NetworkCommissioningDriver.cpp:128-134 | The marker is deleted first, then the credentials |
| FailSafeDriver.ESPWiFiDriver.RevertConfiguration | firmware/external_platform/ESP32_custom/NetworkCommissioningDriver.cpp:136-175 | The revert goes through exactly the specified states and reports their success |
| FailSafeDriver.ESPWiFiDriver.AddOrUpdateNetwork | firmware/external_platform/ESP32_custom/NetworkCommissioningDriver.cpp:182-199 | Status, backup and staging after adding or updating a network |
| FailSafeDriver.ESPWiFiDriver.RemoveNetwork | firmware/external_platform/ESP32_custom/NetworkCommissioningDriver.cpp:201-211 | Status, backup and staging after removing a network |
| FailSafeDriver.ESPWiFiDriver.ConnectWiFiNetwork | firmware/external_platform/ESP32_custom/NetworkCommissioningDriver.cpp:223-258 | The flash configuration is cleared and rewritten as far as the calls succeed |
| FailSafeDriver.ESPWiFiDriver.DisconnectFromNetwork | firmware/external_platform/ESP32_custom/NetworkCommissioningDriver.cpp:261-269 | Disconnecting writes an empty configuration over a provisioned one |
| FailSafeDriver.ESPWiFiDriver.OnConnectWiFiNetwork | firmware/external_platform/ESP32_custom/NetworkCommissioningDriver.cpp:272-280 | Success is told to the waiting callback, once |
| FailSafeDriver.ESPWiFiDriver.OnConnectWiFiNetworkFailed | firmware/external_platform/ESP32_custom/NetworkCommissioningDriver.cpp:282-315 | A failed attempt is told with the status of its reason |
| FailSafeDriver.ESPWiFiDriver.ConnectNetwork | firmware/external_platform/ESP32_custom/NetworkCommissioningDriver.cpp:317-360 | Backup, association and callback of a connect call, with each failure exit |
| FailSafeDriver.ESPWiFiDriver.BackupConfiguration | firmware/external_platform/ESP32_custom/NetworkCommissioningDriver.cpp:563-574 | The credentials are stored before the marker, and nothing if a backup exists |
| FailSafeDriver.ESPWiFiDriver.Live | firmware/external_platform/ESP32_custom/NetworkCommissioningDriver.cpp:96-360 | Life after life of commands, each ended by a power loss: every state that the store and the flash of the driver object have been in satisfies the safety property |
| CommissioningProofs.ResultsNeverCross | firmware/main/app_main.cpp:1675-1759 | On every interleaving, each request let in answers with the first result of its own attempt, or with a timeout if its wait expired, and none is refused over a delegate left behind |
| CommissioningProofs.ResultInTimeIsTheAnswer | firmware/main/app_main.cpp:1726-1769 | On every interleaving, an attempt given its token before its wait expired and answered at all is answered with its result, never with a timeout |
| CommissioningHeard.NoResultIsLost | firmware/main/app_main.cpp:153-173 | On every interleaving, while a request waits, a result still to come will be heard (delegate registered, flag up), one that has come is on its way, or the token is there; every result ever reported was given in time, or came after its wait had expired, or is on its way |
| CommissioningHeard.ReportedIsAnswered | firmware/main/app_main.cpp:1726-1769 | On every interleaving, a request that is answered, whose attempt was reported and whose wait did not expire, was given its token and is answered with that result |
| CommissioningProofs.TokenIsOwn | firmware/main/app_main.cpp:1698-1728 | A token found by a wait was given by the attempt that waits, the slot holds its first result, and nothing can overwrite it before it is read |
| CommissioningProofs.RunKeeps | firmware/main/app_main.cpp:153-173 | The invariant over the flag, token, slot, mutex, stack lock, delegate and callback holds after every step |
| CommissioningProofs.TowardsProgresses | firmware/main/app_main.cpp:1726-1751 | From every reachable state some step of the program itself brings the request closer to its answer |
| CommissioningProofs.NeverStuck | firmware/main/app_main.cpp:1726-1751 | The request in progress can always be answered by the program's own steps, so no lock is held for good |
| CommissioningTasks.Handshake.CommissionNode | firmware/main/app_main.cpp:1675-1769 | The sequential handler, whatever the other tasks do between any two of its accesses: an answered request has its own first result, or a timeout only if the whole patience was spent and no token had been given, or is busy iff another held the mutex; it goes unanswered only while the stack is held or a callback runs that nobody goes on with |
| CommissioningTasks.Handshake.SignalCommissioningComplete | firmware/main/app_main.cpp:153-173 | The sequential callback, whatever the handlers do between its accesses: it wakes somebody iff the flag was up, the one woken holds the mutex for this very attempt and finds the whole first result, and otherwise nothing changes |
| CommissioningTasks.Handshake.StopPairing | firmware/main/app_main.cpp:1730-1749 | Once the stop is through, no callback of the attempt can signal any more and no delegate is registered |
| StationProofs.EveryRunIsConsistent | firmware/external_platform/ESP32_custom/ConnectivityManagerImpl_WiFi.cpp:394-811 | On every run, two Established events have a Lost between them, the internet flags are set only in Connected or Disconnecting, and folding the posted changes gives the flags |
| StationProofs.LostWithoutEstablished | firmware/external_platform/ESP32_custom/ConnectivityManagerImpl_WiFi.cpp:499-549 | A concrete run in which Lost is posted though Established never was |
| StationAlternation.HandleAlternates | firmware/external_platform/ESP32_custom/ConnectivityManagerImpl_WiFi.cpp:477-591 | For each input, exactly when it starts an unannounced disconnection, when one goes on, and when it posts a Lost on its own |
| StationAlternation.AlternationHolds | firmware/external_platform/ESP32_custom/ConnectivityManagerImpl_WiFi.cpp:394-591 | Established and Lost alternate on exactly the runs in which no link found up during an attempt, unwanted, and taken down is later found down |
| StationProofs.NoEarlyRetry | firmware/external_platform/ESP32_custom/ConnectivityManagerImpl_WiFi.cpp:500-586 | After a failed attempt handled at t, no run that does not observe the link up starts a connection before t plus the interval |
| StationProofs.FailureStartsWait | firmware/external_platform/ESP32_custom/ConnectivityManagerImpl_WiFi.cpp:528-586 | Handling a failed attempt starts nothing at once and arms the timer for the whole interval if the station is wanted |
| StationProofs.TimerCoversTheWait | firmware/external_platform/ESP32_custom/ConnectivityManagerImpl_WiFi.cpp:550-586 | The timer is armed iff the station is wanted, down and waiting, for exactly the positive time that remains, and the drive it causes connects |
| StationSteps.DriveUpDoes | firmware/external_platform/ESP32_custom/ConnectivityManagerImpl_WiFi.cpp:499-525 | A drive that finds the link up: Established iff the connection was not known of, with the flags the interface shows, then a disconnect iff the station is neither wanted nor under application control; and the state and failure time it leaves |
| StationSteps.DriveDownPosts | firmware/external_platform/ESP32_custom/ConnectivityManagerImpl_WiFi.cpp:528-586 | A drive that finds the link down: Lost iff the station was connected or being disconnected, then a connection iff one is wanted and due, at once after a loss, or else the timer iff one is wanted |
| StationSteps.DriveDownMoves | firmware/external_platform/ESP32_custom/ConnectivityManagerImpl_WiFi.cpp:528-586 | The state, flags and failure time such a drive leaves: no failure after a loss, the present after an attempt that failed |
| StationSteps.DriveMode | firmware/external_platform/ESP32_custom/ConnectivityManagerImpl_WiFi.cpp:477-497 | A drive takes the mode from the Wi-Fi layer unless the application has the station, and does nothing else if it cannot look at the link |
| StationSteps.EventEndsAttempt | firmware/external_platform/ESP32_custom/ConnectivityManagerImpl_WiFi.cpp:411-427 | The event that ends an attempt: a connected station is announced, a disconnected one waits from now on |
| StationSteps.AddressShows | firmware/external_platform/ESP32_custom/ConnectivityManagerImpl_WiFi.cpp:724-811 | After an address event the IPv4 flag says that a connected station is up with its link, a DNS server, an address and a gateway, the IPv6 flag that it has a valid address of 2000::/3 and the default route, and the events posted say what changed |
| StationSteps.ModeMoves | firmware/external_platform/ESP32_custom/ConnectivityManagerImpl_WiFi.cpp:72-125 | Which mode each mode change and disconnect leaves, and that nothing else changes |
| StationManager.ConnectivityManager.DriveStationState | firmware/external_platform/ESP32_custom/ConnectivityManagerImpl_WiFi.cpp:477-591 | A drive updates state, failure time, flags and posted events by the specified step |
| StationManager.ConnectivityManager.OnWiFiPlatformEvent | firmware/external_platform/ESP32_custom/ConnectivityManagerImpl_WiFi.cpp:394-462 | Each platform event is the specified step |
| StationManager.ConnectivityManager.UpdateInternetConnectivityState | firmware/external_platform/ESP32_custom/ConnectivityManagerImpl_WiFi.cpp:724-811 | The flags follow the interface and one event says what changed, if anything did |
| StationManager.ConnectivityManager.SetWiFiStationMode | firmware/external_platform/ESP32_custom/ConnectivityManagerImpl_WiFi.cpp:72-93 | The mode changes only when every call on the way succeeds |
| StationManager.ConnectivityManager.DisconnectNetwork | firmware/external_platform/ESP32_custom/ConnectivityManagerImpl_WiFi.cpp:114-125 | A connected station is handed to the application and told to disconnect |
| StationManager.ConnectivityManager.HandleAll | firmware/external_platform/ESP32_custom/ConnectivityManagerImpl_WiFi.cpp:394-591 | After any run of inputs the object is where the specification is, with its events apart, its flags in place and a listener knowing them |
| DeltaOta.EverySplitIsWhole | firmware/external_platform/ESP32_custom/OTAImageProcessorImpl.cpp:236-287 | Every split of an image into non-empty buffers does what one buffer would: all of it written once longer than the header, or nothing if the chip id is wrong |
| DeltaOta.WrittenIsChecked | firmware/external_platform/ESP32_custom/OTAImageProcessorImpl.cpp:236-287 | Whatever fails, what is written is an initial part of the stream and only of one whose header was checked; a refused session has written nothing |
| DeltaOta.SplitsAgree | firmware/external_platform/ESP32_custom/OTAImageProcessorImpl.cpp:236-287 | Two splits of the same image end in the same state |
| DeltaOta.HeaderAccepted | firmware/external_platform/ESP32_custom/OTAImageProcessorImpl.cpp:148-170 | A patch header is accepted iff it begins with the magic bytes and the running firmware's digest |
| DeltaOta.EverySplitChecksTheHeader | firmware/external_platform/ESP32_custom/OTAImageProcessorImpl.cpp:172-198 | For every split of a patch stream the header checked is exactly its first 64 bytes, and the patcher is fed the rest after whatever came before the completing block |
| DeltaOta.FedIsTheRest | firmware/external_platform/ESP32_custom/OTAImageProcessorImpl.cpp:499-513 | The patcher is fed exactly what follows the header iff the first block with data holds the whole header |
| DeltaOta.SplitHeaderIsFed | firmware/external_platform/ESP32_custom/OTAImageProcessorImpl.cpp:172-198 | A concrete header in two blocks whose first 36 bytes reach the patcher |
| DeltaOtaProcessor.OTAImageProcessor.DeltaOTAWriteCallback | firmware/external_platform/ESP32_custom/OTAImageProcessorImpl.cpp:236-287 | The buffer, counter, flag and written bytes after a callback, and its error |
| DeltaOtaProcessor.OTAImageProcessor.VerifyHeaderData | firmware/external_platform/ESP32_custom/OTAImageProcessorImpl.cpp:172-198 | The buffer, counter and flag after a block, and how much of it was header |
| DeltaOtaProcessor.OTAImageProcessor.HandleProcessBlock | firmware/external_platform/ESP32_custom/OTAImageProcessorImpl.cpp:499-546 | A block is checked and the rest of it fed by the specified step |
| DeltaOtaProcessor.OTAImageProcessor.ProcessBlocks | firmware/external_platform/ESP32_custom/OTAImageProcessorImpl.cpp:460-546 | A whole download up to its first error is the specified one |
| DeltaOtaProcessor.OTAImageProcessor.WriteChunks | firmware/external_platform/ESP32_custom/OTAImageProcessorImpl.cpp:236-287 | A whole image up to its first error is the specified one |
| RoomSave.SittingIsSound | firmware/html_app/src/EditRoom.tsx:96-168 | Over every sequence of edits and saves, whichever requests fail or are lost, after each request the radiators the stored room refers to exist and none is gone that was not asked to be deleted |
| RoomSave.DeletedWereRemoved | firmware/html_app/src/EditRoom.tsx:44-94 | A radiator asked to be deleted was loaded on the form and every emitter for it was removed by the user; one that could not be fetched is never deleted |
| RoomSave.SaveStores | firmware/html_app/src/EditRoom.tsx:96-161 | A save that succeeds has stored each radiator as the last emitter for it on the form, made the room refer to exactly those in order, and changed no other radiator nor lost any but the removed ones, which are gone if no request failed |
| RoomRequests.SaveSendsInOrder | firmware/html_app/src/EditRoom.tsx:96-161 | A save sends a request for each emitter in order, then the room, then the deletion of what it no longer refers to, up to the first that fails (a deletion only fails without a reply); it succeeds iff none failed, and all were sent then |
| RoomSave.EditedHolds | firmware/html_app/src/EditRoom.tsx:76-94 | An edit takes a radiator off the form only by removing its emitter, and never puts one on |
| RoomSave.LoadHolds | firmware/html_app/src/EditRoom.tsx:44-70 | The form remembers exactly the radiators that could be fetched, and has an emitter for each |
| RoomShown.LoadShows | firmware/html_app/src/EditRoom.tsx:44-71 | The loaded form has, in the room's order, an emitter for each radiator that could be fetched, with exactly the details fetched and a key of its own |
| RoomShown.UpdateMeans | firmware/html_app/src/EditRoom.tsx:88-90 | An update changes the named field of the emitter of that key to the value given, and no other field or emitter |
| RoomShown.RemoveMeans | firmware/html_app/src/EditRoom.tsx:92-94 | A removal takes out exactly the emitter of that key, and the others stay in order |
| RoomShown.AddMeans | firmware/html_app/src/EditRoom.tsx:76-86 | An addition appends one blank emitter with a key that no other has |
| RoomShown.UntouchedSaveChangesNothing | firmware/html_app/src/EditRoom.tsx:44-161 | Loading a room of which all radiators can be fetched and saving it untouched, with every request accepted, leaves every radiator and the room's list as they were |
| RoomForm.EditRoom.FetchRoom | firmware/html_app/src/EditRoom.tsx:44-70 | The load loop fills the form as specified, which LoadShows and LoadHolds are about |
| RoomForm.EditRoom.SaveRoom | firmware/html_app/src/EditRoom.tsx:96-168 | The save sends the specified requests in order and stops where it must |
| RoomListing.ComparatorMeans | firmware/main/app_main.cpp:2764-2779 | The comparator is dictionary order of the names ignoring case, a missing name as empty, then the room's number |
| RoomListing.ComparatorIsTotalOrder | firmware/main/app_main.cpp:2764-2779 | It is a strict total order on rooms with distinct numbers |
| RoomListing.StrcasecmpMeans | firmware/main/app_main.cpp:2771 | The sign of the C comparison is dictionary order of the folded names |
| RoomListing.SortedIsUnique | firmware/main/app_main.cpp:2764-2798 | Two sorted arrangements of the same rooms are equal |
| RoomListing.ListingIgnoresStoredOrder | firmware/main/app_main.cpp:2785-2798 | Any sort by the comparator gives the one listing, whatever the order the rooms are stored in |
| RoomListing.RoomManager.ListRooms | firmware/main/app_main.cpp:2785-2798 | The listing is the sort of the stored rooms, no more than are counted, and the fill stays inside the array |
| PacketFilter.ESP32EndpointQueueFilter.FilterBeforeEnqueue | firmware/external_platform/ESP32_custom/ESP32EndpointQueueFilter.h:38-54 | A packet is dropped iff it goes to the mDNS group and port (section 3 of RFC 6762) and is chained or holds neither name at any offset, ignoring case |
| PacketFilter.CaseNeverMatters | firmware/external_platform/ESP32_custom/ESP32EndpointQueueFilter.h:83-111 | Changing the case of letters in the payload or the host name never changes the decision |
| PacketFilter.ContainsMeans | firmware/external_platform/ESP32_custom/ESP32EndpointQueueFilter.h:97-111 | A payload contains a name iff some part of it is the name but for the case of letters |
| PacketFilter.NeverDropped | firmware/external_platform/ESP32_custom/ESP32EndpointQueueFilter.h:38-54 | A packet in one buffer that mentions Matter or the host name anywhere is never dropped |
| PacketFilter.MdnsMeans | firmware/external_platform/ESP32_custom/ESP32EndpointQueueFilter.h:64-81 | An IPv4 packet is one of the group iff IPv4 is configured and it goes to port 5353 of 224.0.0.251, any other iff it goes to that port of the address whose words are ff02:0:0:0:0:0:0:fb |
| PacketFilter.BytesCaseInsensitiveCompare | firmware/external_platform/ESP32_custom/ESP32EndpointQueueFilter.h:83-95 | The loop finds the bytes equal iff they are equal when folded |
| PacketFilter.PayloadContainsCaseInsensitive | firmware/external_platform/ESP32_custom/ESP32EndpointQueueFilter.h:97-111 | The search finds a name iff the payload is one buffer and holds it |
| PacketFilter.IsMdnsBroadcastPacket | firmware/external_platform/ESP32_custom/ESP32EndpointQueueFilter.h:64-81 | The packet goes to port 5353 of 224.0.0.251, where IPv4 is configured, or of ff02::fb |
| PacketFilter.ESP32EndpointQueueFilter.SetMdnsHostName | firmware/external_platform/ESP32_custom/ESP32EndpointQueueFilter.h:30-36 | Only twelve upper-case hexadecimal digits are taken; anything else leaves the name as it was |
| PacketFilter.IsValidMdnsHostName | firmware/external_platform/ESP32_custom/ESP32EndpointQueueFilter.h:113-124 | The name is valid iff every character is an upper-case hexadecimal digit |
| Ascii.FoldedForgetsCase | firmware/external_platform/ESP32_custom/ESP32EndpointQueueFilter.h:83-95 | Two byte strings fold to the same iff they differ only in the case of letters |

## Left out

- DrawnExactly: compares with the changes that change the state, which in order is the replay of all changes (KeptShowsTheSame); out of order a change to the state the node is in already is none, as the builder has it.
- DayShowsHistory: assumes that the card was there for every flush, that writes to it succeed and that no boot was dropped from a full ring.
- DayIsDrawn: assumes that the dates written never go backwards, which the firmware can break as described above (FileIsDrawn does not assume it). The events of the last minute, which the reader appends from memory, the text of an error and records of later firmware are not in the model; a day's file is read whole.
- DayFileIsWellFormed: assumes whole flushes, so that a boot in a file follows a sign of life.
- NextInv: handles are fresh values and may notify once after their lookup has ended; whether deleting a query in progress frees it or stops its notification is inside the mdns library.
- EveryCallIsTruthful: a failed allocation of the text entries, the address of a browsed service, its interface and its protocol are not in the model.
- MdnsQueryDone: results are sequences of nodes rather than chained objects; the equality of two lists is that of their first nodes' addresses. The list of contexts is a linked list as in the source.
- EveryPointIsSafe: each operation on the key-value store is one step, and reads and deletions succeed; writes may fail.
- TimeoutDoes: the reason of the last disconnection comes with the command; recording it (lines 518-525) is not in the model.
- SuccessExactly: the Wi-Fi layer joins the network that is in flash; an association itself does not name one.
- Live: power is lost between commands; a loss inside a command is in EveryPointIsSafe, not in the object form.
- ProvisioningSurvivesPowerLoss: the Wi-Fi layer writes its configuration whole.
- ResultsNeverCross: assumes that results arrive only through the registered pairing delegate and inside the chip-stack lock, as the comments at app_main.cpp:159-161 and 1732-1735 do. The refusals with status 500 before the mutex is taken are not in the model.
- CommissionNode: the timeout is a number of turns that the other tasks take, and what they do is a finite schedule, so a handler whose lock is never let go ends without an answer. The branch for a pairing delegate left behind is proved unreachable rather than written out.
- EveryRunIsConsistent: what the interface shows (link, DNS server, addresses, route) is an input of each step, not derived from lwIP.
- TimerCoversTheWait: the timer is an event posted for a delay; that the system delivers it on time is not in the model.
- EverySplitIsWhole: the image header's length and its chip id check are parameters, since the layout of esp_image_header_t is not part of this model; a null buffer counts as an empty one. One fresh session, since the static counters outlive an abort.
- EverySplitChecksTheHeader: the stream is what is left after the OTA file header and decryption.
- SittingIsSound: one client edits the room at a time, and the device's own handlers are reduced to their effect on the stored radiators and the room.
- SaveStores: the room's own fields and the conversion of form fields to numbers are not in the model.
- ListRooms: the library's qsort is modelled by an insertion sort; ListingIgnoresStoredOrder shows that any correct sort gives the same listing.
- BuildTimelines: numbers are reals, so rounding of fractional seconds is not modelled; midnight, the clock and today's date are parameters.
- HTTP handlers, JSON building, web sockets, MQTT and page rendering: input and output.
- Node, room and radiator managers and heat calculations: not needed by the properties above.
- OTA encryption, finalizing an update, border-router images, NVS accessors, crypto wrappers: calls into libraries.
- Channel tables, authentication mode maps and formatters: they would only add easy members.
