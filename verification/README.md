# Verification model of the Wi-Fi and Bluetooth vendor libraries

This project models three parts of the repository and proves properties of them in Dafny 4.11. `dafny verify dfyconfig.toml` checks all of it.

**Bluetooth firmware configuration** (`wpan/libbt/hardware-ti.c`, built with `USE_CONTROLLER_BDADDR == TRUE`).
`HwConfigMachine` is the code as it is written: a command buffer filled byte by byte, the control block, the switch with its fall-throughs, the loops of the downloader. Each method is proved equal to a function of `BtsScript` (the byte cursor over a `.bts` script) or `HwConfig` (one callback, as a new state and the list of what it did). `HwConfigRuns` proves what holds of a callback and of whole runs, `HwConfigPlan` that runs carry out a straight program with no states and no fall-throughs, whatever is answered, `HwConfigEnds` over which scripts a run can hang, and `HwConfigHeap` what holds of the script buffer over any sequence of runs. Packets have the layout of section 5.4.1 of the Bluetooth Core Specification, Vol 4, Part E, and events that of section 7.7.14.

**Registration, dispatch and reference counts of the Wi-Fi HAL** (`wlan/hal/common.cpp`, `wifi_hal.cpp`, `cpp_bindings.h` and the commands).
`HandlerTables` holds the two tables, in place and as sequences. `StartCancel` starts and cancels the seven families of listening commands against them; `Cleanup` is the loop at the end of the HAL. `CommandLifecycle` lets any number of threads interleave between starting, failing, cancelling, dispatching and retiring, and proves that no freed command is ever used. Its discipline is that of the HAL's callers: a new id is not that of a command whose first reference is not dropped, nor of a ranging command that is still in its handler; live registrations have different keys, which shuts out full scan results beside a scan; no start is cancelled before it returns. A caller cannot see what is in a handler, so `CheckedInterleavingsAreSafe` proves the same from a rule a caller can check: a new id is not outstanding - not in the table, not the subject of a call that has not returned - and was never given to a ranging command. `LifecycleLimits` proves that each part of the discipline is needed, and that ids that are only not outstanding are not enough. What safety alone does not promise is in two more modules: `LifecycleHistory` tells from the history of a run what has become of each command when all threads are idle again, and `CallbackKeeping` when a started command keeps its callbacks. Table operations and reference-count changes are atomic steps.

**Nested netlink attributes** (`wlan/hal/gscan.cpp`, `rtt.cpp`, `cpp_bindings.h`, `cpp_bindings.cpp`).
`Netlink` gives attributes as bytes: a 16-bit length that counts the 4-byte header, a 16-bit type, a payload padded to 4; and the iterator that walks over them. `WifiRequests` appends to a message of fixed size. `ScanRequest` builds the scan setup request, `CachedScans` retrieves cached scans in rounds, `Rtt` gathers ranging results over several events, `CachedReply` and `RttEvent` write such replies and events the way a driver does and show that they are read as they were written, `HexDump` is the dump of a message in the log. An iterator may read past the end of a payload, as the code does: memory is a sequence with zeros behind it, and every theorem is for all memories.

Where the code and what one expects of it differ, the model follows the code. Unless a line says otherwise, a lemma gives the exact condition, and where that leaves open whether it is ever met, another lemma gives an input:

- The download loop of the firmware hangs when a dropped command is not followed by a wait event: `BtsScript.LoopEndsIffDropsAwaited`, and a script of one action in `BtsScript.LoopCanHang`. A well-formed script can make a run hang, with some answers, exactly when one of its dropped commands lacks its wait event: `HwConfigEnds.HangsIffDropUnawaited`; over all other scripts every run ends, whatever is refused: `HwConfigEnds.StartedRunEnds`.
- `fw_data` is not reset after a run, so a later run that loads no script frees the old pointer again. All runs from a state free what is live exactly when `fw_data` is null there: `HwConfigHeap.FreesLiveIffNull`. `HwConfigHeap.RunsFreeLive` says for any sequence of runs which do not, and from every state there are two runs that free a pointer twice: `HwConfigHeap.StaleRunsExist`.
- A command of the script that the stack refuses ends the download, and success is reported all the same: `HwConfigPlan.RefusedCommandEndsInSuccess`.
- The Update Baudrate packet announces and sends six parameter bytes but four are written; the other two show what the buffer held before: `HwConfig.BaudPacketShowsBuffer`.
- A codec buffer whose transmission is refused is never given back: `HwConfigRuns.CodecBufferKeptIffRefused`.
- A ranging command that is cancelled while an event is with it still retires its id when it completes; if another command has been given that id, it is taken out and freed instead. Here there is no exact condition: `LifecycleLimits.ReusedIdGoesBad` is such a run, and `CommandLifecycle.CheckedInterleavingsAreSafe` says what is enough to avoid it.
- It also removes the callback of its event when it completes, even if that is another ranging command's by then: `LifecycleLimits.CallbackOfAnotherGoes` is such a run. A callback stays exactly when no thread removes its key, `CallbackKeeping.StaysIffNeverRemoved`; `CallbackKeeping.CallbacksAreKept` says what a caller can do for that.
- A cancel takes the first registration for each of its events, whoever's it is, so it removes its own and no other exactly when its own are the first: `StartCancel.CancelRemovesExactly`. When full scan results are registered behind a scan, cancelling them takes the scan's callback instead: `StartCancel.FullScanBesideScan`.
- A hotlist start that fails early removes the registrations of another hotlist, if there is one: `StartCancel.UnregisterAllIsIdle`; and a start that rolls back leaves the table as it was exactly when nobody else listens to its events: `StartCancel.RollbackRestores`. `StartCancel.SecondHotlistRemovesFirst` is a table at which both go wrong, and `LifecycleLimits.EarlyFailureRemovesAnothers` a run.
- The loop at the end of the HAL never ends if the command table holds a null command: `Cleanup.SweepEndsIffNoNull`.
- A cached scan can report a negative number of results: `CachedScans.NegativeResults` for a scan, `CachedScans.NegativeInReply` for a reply, `CachedScans.NegativeHeld` for what is stored, and a reply of sixteen bytes in `CachedScans.NegativeScanExists`.
- With more than ten buckets, the types of the bucket nests repeat those of the bucket count and the base period: `ScanRequest.TypesAreUnique`, `ScanRequest.ElevenBucketsClash`.
- A ranging event without vendor data is accepted and its attributes are looked for at a null pointer, and one with more results than the array has room for is written behind its end; a result without memory takes a place as well. `Rtt.RttCommand.HandleEvent` says when the handler comes back and when not.

## Model

| member | source | states |
|---|---|---|
| BtsScript.NextCommandIsFirstOfCommands | wpan/libbt/hardware-ti.c:273-321 | the next command to send is the first of the script's send commands that are not dropped, with the others behind it |
| BtsScript.StuckIffUnawaitedFirst | wpan/libbt/hardware-ti.c:188-207 | there is none to be had if and only if, before the first kept command, a dropped one lacks its wait event |
| BtsScript.LoopEndsIffDropsAwaited | wpan/libbt/hardware-ti.c:188-207 | for any memory and any cursor, the loop of `hw_download_firmware` ends if and only if every dropped command it reaches is followed by a wait event; otherwise the helper fails for ever from an unchanged state |
| BtsScript.LoopCanHang | wpan/libbt/hardware-ti.c:316-321 | a script of one dropped action over which the loop does not end |
| BtsScript.LoopEndsInScript | wpan/libbt/hardware-ti.c:273-321 | in a well-formed script the loop ends if and only if no dropped command before the first kept one lacks its wait event |
| BtsScript.SendsOfScript | wpan/libbt/hardware-ti.c:316-348 | from a well-formed script no more is transmitted than its kept commands, and all of them when the drops are awaited |
| BtsScript.ScanRefinesNextCommand | wpan/libbt/hardware-ti.c:273-314 | on a well-formed script the byte cursor stops at the command the list filter gives, on an action boundary, with the rest of the list ahead |
| HwConfig.VersionIsPacked | wpan/libbt/hardware-ti.c:440-452 | the version word of chip, major and minor gives those three numbers, the fourth bit of the major being the carry bit |
| HwConfig.VersionIsInjective | wpan/libbt/hardware-ti.c:440-452 | and different words give different numbers |
| Bytes.LeastSignificantFirst | wpan/libbt/hardware-ti.c:78-79 | words of two and four bytes are written least significant byte first |
| HwConfig.BaudPacketShowsBuffer | wpan/libbt/hardware-ti.c:376-386 | two Update Baudrate packets are the same if and only if the buffers held the same last two bytes before: those are sent as they were |
| HwConfig.BaudPacketCarriesRate | wpan/libbt/hardware-ti.c:376-386 | the word behind the length byte is the target baud rate, least significant byte first |
| HwConfig.WriteAddrPacketCarriesAddress | wpan/libbt/hardware-ti.c:238-252 | the parameters are the host's address, its last byte first |
| HwConfigRuns.DownloadRefinesList | wpan/libbt/hardware-ti.c:316-348 | a download callback sends the next kept command without its prefix byte and keeps offset plus remaining length constant, with the length not negative; or ends the run when none is left; or hangs |
| HwConfigRuns.EveryBufferHasOneFate | wpan/libbt/hardware-ti.c:361-503 | in every callback the command buffer meets one accepted transmission or one dealloc, and the event buffer one dealloc |
| HwConfigRuns.CodecBufferKeptIffRefused | wpan/libbt/hardware-ti.c:635-642 | a codec buffer has no fate in its callback exactly when its transmission was refused |
| HwConfigRuns.HangsIffStuck | wpan/libbt/hardware-ti.c:351-504 | a callback hangs if and only if it is granted its buffer and comes to a download whose loop does not end |
| HwConfigRuns.StepEndsOrProgresses | wpan/libbt/hardware-ti.c:374-503 | for any script and any answers, every callback that comes back ends the run with one report, or reports nothing and uses up some of a budget made of the state's rank and the commands left to send, through all fall-throughs and refusals |
| HwConfigRuns.EveryRunEnds | wpan/libbt/hardware-ti.c:351-504 | for any scripts and answers, a run that returns has reported once if it has ended, and otherwise has reported nothing and is within its budget; it does not return exactly when one of its callbacks hangs |
| BtsScript.NeverStuckInScript | wpan/libbt/hardware-ti.c:273-348 | over a well-formed script the loop ends in every download callback if and only if every dropped command has its wait event |
| HwConfigEnds.GoodScriptsReturn | wpan/libbt/hardware-ti.c:351-504 | over scripts in which the loop always ends, every run returns, whatever is refused and whatever fails |
| HwConfigEnds.StartedRunEnds | wpan/libbt/hardware-ti.c:209-236 | over well-formed scripts whose dropped commands have their wait events, a run from an accepted reset ends within 6 callbacks more than there are commands, and reports exactly once |
| HwConfigEnds.HangsIffScriptIsBad | wpan/libbt/hardware-ti.c:316-348 | whatever the bytes of a script, some run over it hangs if and only if the loop does not always end in it |
| HwConfigEnds.HangsIffDropUnawaited | wpan/libbt/hardware-ti.c:188-207 | some run over a well-formed script hangs if and only if one of its dropped commands has no wait event behind it |
| HwConfigRuns.ScriptBufferFreedOnce | wpan/libbt/hardware-ti.c:473-474 | a run allocates at most one script buffer and then frees one pointer, at its end: that buffer, or what `fw_data` held before |
| HwConfigHeap.FreesLiveIffNull | wpan/libbt/hardware-ti.c:498 | every run from a state frees only live pointers if and only if `fw_data` is null in that state |
| HwConfigHeap.SecondRunsFreeLiveIffNull | wpan/libbt/hardware-ti.c:473-474 | after a run, every second run frees only live pointers if and only if the first has left a null one |
| HwConfigHeap.SecondRunFreesAgain | wpan/libbt/hardware-ti.c:473-474 | which of two runs do not: those whose second allocates nothing while the first has left a pointer; it frees the pointer the first has freed |
| HwConfigHeap.RunsFreeLive | wpan/libbt/hardware-ti.c:145-176 | a sequence of runs frees only live pointers if and only if none of them allocates nothing while `fw_data` is not null |
| HwConfigHeap.StaleRunsExist | wpan/libbt/hardware-ti.c:498 | from every state, two complete runs, the second of which finds no script file, that free one pointer twice |
| HwConfigRuns.DownloadTrace | wpan/libbt/hardware-ti.c:461-481 | when all goes well the download transmits the kept commands of the script in order and then the codec commands; it comes back if and only if every dropped command has its wait event |
| HwConfigRuns.WholeRunTrace | wpan/libbt/hardware-ti.c:209-504 | the exact transmissions of a whole run: Reset, Update Baudrate, Read BD_ADDR, Write BD_ADDR if and only if the controller's address was null, Read Local Version, the filtered script, both codec commands; and one success report |
| HwConfigPlan.RunsCarryOutTheProgram | wpan/libbt/hardware-ti.c:351-504 | whatever is answered, refused or failed, and whatever is in the script: a run that returns does what a straight program does, effect by effect and in that order - a refused Read or Write BD_ADDR is passed over in the same callback, a refused baud rate or version request gives up, a refused script command ends the download |
| HwConfigPlan.WholeRunInFull | wpan/libbt/hardware-ti.c:209-504 | a run in which all goes well, in full: among its effects the host's speed is set once, behind the controller's, and one script is opened, the one the version word in the controller's answer names |
| HwConfigPlan.ScriptIsCommands | wpan/libbt/hardware-ti.c:273-348 | the commands that program sends of a well-formed script are its kept commands |
| HwConfigPlan.RefusedCommandEndsInSuccess | wpan/libbt/hardware-ti.c:461-481 | with the k-th script command refused, those before it have been sent, none after it is, and success is reported |
| HwConfigPlan.TransmissionsAreComplete | wpan/libbt/hardware-ti.c:316-348 | over every run, whatever the script, each transmission is its opcode, the length of its parameters, and as many bytes |
| HwConfigPlan.StartsOrFails | wpan/libbt/hardware-ti.c:209-236 | a start without a buffer reports failure at once; otherwise the reset goes out and its acceptance is not looked at |
| HwConfigMachine.Machine.SkipHciCommand | wpan/libbt/hardware-ti.c:188-207 | moves past a dropped command if a wait event follows, and otherwise nowhere |
| HwConfigMachine.Machine.DownloadFirmwareHelper | wpan/libbt/hardware-ti.c:273-314 | leaves the cursor where the functional scan leaves it, and fails exactly on a dropped command |
| HwConfigMachine.Machine.LoadBts | wpan/libbt/hardware-ti.c:145-176 | sets the buffer, the cursor behind the header, the remaining length and the state for each way loading can go |
| HwConfigMachine.Machine.Cback | wpan/libbt/hardware-ti.c:351-504 | the callback, in place, is the step function of every run theorem |
| HwConfigMachine.Machine.HwConfigStart | wpan/libbt/hardware-ti.c:209-236 | the start, in place, is what the run theorems begin from |
| HandlerTables.TableIsFifoPerKey | wlan/hal/common.cpp:70-168 | over every history the callback table is, for each key, a first-in-first-out queue of its own that operations on other keys leave alone |
| HandlerTables.ReachableTable | wlan/hal/common.cpp:70-168 | in every reachable state the table fits its capacity and only vendor entries carry a vendor id |
| HandlerTables.HalInfo.RegisterVendorHandler | wlan/hal/common.cpp:95-119 | appends when there is room, refuses with out-of-memory and changes nothing when there is none |
| HandlerTables.HalInfo.UnregisterVendorHandler | wlan/hal/common.cpp:147-168 | removes the oldest entry for the key in place and keeps the order of the rest |
| HandlerTables.HalInfo.UnregisterHandler | wlan/hal/common.cpp:121-145 | the same for plain events; refuses the vendor command |
| HandlerTables.HalInfo.FindHandler | wlan/hal/wifi_hal.cpp:552-583 | an event goes to the front of its key's queue, or to nobody if that is empty |
| HandlerTables.HalInfo.RegisterCmd | wlan/hal/common.cpp:171-191 | appends a command when there is room and otherwise changes nothing |
| HandlerTables.HalInfo.UnregisterCmdById | wlan/hal/common.cpp:193-216 | takes out the first entry with the id, returns its command, and keeps the order of the rest |
| HandlerTables.HalInfo.GetCmd | wlan/hal/common.cpp:218-232 | finds the first entry with the id |
| HandlerTables.HalInfo.UnregisterCmdByPointer | wlan/hal/common.cpp:234-247 | takes out the first entry of the command |
| CommandLifecycle.StepKeepsInv | wlan/hal/wifi_hal.cpp:552-583 | every step of every thread keeps the invariant that accounts for every reference, whatever the step is for |
| CommandLifecycle.EveryInterleavingIsSafe | wlan/hal/cpp_bindings.h:270-282 | over every interleaving no freed command is used, each is freed once when its count reaches 0, the count is its first reference plus the dispatches under way, and every callback is for a live command |
| CommandLifecycle.CheckedInterleavingsAreSafe | wlan/hal/common.cpp:249-262 | the same for callers who reuse neither an outstanding id nor any ranging command's id, which they can check without knowing what is in a handler |
| CommandLifecycle.OnlyOneTakesACommand | wlan/hal/common.cpp:249-262 | of a cancel and the command's own completion only one takes it out of the table and owes its first reference |
| CommandLifecycle.OneSideDropsACommand | wlan/hal/rtt.cpp:612-623 | and one does: a command no longer listed is owed by one thread or has been dropped once |
| CommandLifecycle.RetiringNeverFrees | wlan/hal/cpp_bindings.cpp:707-720 | the release inside the command's own handler never frees it, so the signal behind it is on a live command |
| LifecycleHistory.GoneIffFinished | wlan/hal/common.cpp:249-262 | over every disciplined interleaving, when all threads are idle again a command is freed once and in neither table if and only if there was no room for it, its start failed, it was cancelled, or an event completed it; otherwise it is in the table with its one reference |
| LifecycleHistory.ListedHearAll | wlan/hal/gscan.cpp:624-641 | and if commands share no event and the callback table is never full, each command in the table then has a callback for every event of its kind |
| CallbackKeeping.OnlyTheCompletedRetire | wlan/hal/rtt.cpp:612-623 | over every interleaving a thread retires a command only if it has handled an event that completed it |
| CallbackKeeping.StaysIffNeverRemoved | wlan/hal/common.cpp:147-168 | over every disciplined interleaving a callback stays if and only if no thread, for whatever command, removes its key |
| CallbackKeeping.CallbacksAreKept | wlan/hal/rtt.cpp:612-623 | when no command is created that shares an event with one still alive, a callback goes only after its own command's start has failed, it was cancelled, or an event completed it |
| LifecycleLimits.CallbackOfAnotherGoes | wlan/hal/rtt.cpp:612-623 | a disciplined run after which a ranging command is listed and alive and its callback has been removed by another's completion |
| LifecycleLimits.EarlyFailureRemovesAnothers | wlan/hal/gscan.cpp:1093-1099 | a disciplined run in which a hotlist's early failure removes another hotlist's callback |
| LifecycleLimits.EveryRuleIsNeeded | wlan/hal/common.cpp:249-262 | for each part of the discipline, a run from the initial state that breaks only that part uses a freed command; for the part on ids, the id reused is in no table and in no call any more |
| StartCancel.StartStopsAtFirstFailure | wlan/hal/gscan.cpp:591-641 | for each family, of the codes its start asks for in order: the start succeeds if and only if all are 0, its result is the first that is not, and it rolls back exactly when its handlers were registered before that one |
| StartCancel.StartScan | wlan/hal/gscan.cpp:591-641 | the result is the first of six codes that is not 0, and the callbacks are those of that ending |
| StartCancel.StartHotlist | wlan/hal/gscan.cpp:1085-1119 | the callbacks after a hotlist start, with its early failure that unregisters all the same |
| StartCancel.StartFullScan | wlan/hal/gscan.cpp:416-435 | the callbacks after a full-scan start |
| StartCancel.StartMonitor | wlan/hal/wifi_hal.cpp:807-828 | RSSI monitoring and ranging register only once the driver has agreed |
| StartCancel.StartLogger | wlan/hal/wifi_logger.cpp:501-505 | the log and alert handlers register and cannot fail |
| StartCancel.FailedStartLeavesNothing | wlan/hal/gscan.cpp:591-641 | a start that fails on any path leaves the callbacks as they were |
| StartCancel.UnregisterAllIsIdle | wlan/hal/gscan.cpp:1093-1099 | unregistering without having registered changes nothing if and only if nobody listens to those keys |
| StartCancel.RollbackLeavesNothing | wlan/hal/gscan.cpp:629-639 | registering handlers and removing them again, in another order, restores the table, also when it was too full for some of them |
| StartCancel.RollbackRestores | wlan/hal/gscan.cpp:629-639 | and it does so if and only if nobody else listens to those keys |
| StartCancel.SecondHotlistRemovesFirst | wlan/hal/gscan.cpp:1093-1099 | with one hotlist registered, the early failure of another, and its rollback, each change the table |
| StartCancel.CancelUndoesStart | wlan/hal/gscan.cpp:643-661 | a cancel right after a start restores both tables |
| StartCancel.CancelRemovesExactly | wlan/hal/common.cpp:147-168 | for any table, a cancel removes exactly its command's callbacks and keeps the order of all others if and only if those are the first for the family's keys |
| StartCancel.OwnedAreForemost | wlan/hal/common.cpp:249-262 | so it does, whatever else was registered since, when no two commands listen to the same event |
| StartCancel.FullScanBesideScan | wlan/hal/gscan.cpp:425-431 | cancelling full scan results beside a scan leaves its own callback and removes the scan's |
| StartCancel.KeysOf | wlan/hal/gscan.cpp:628-630 | each of the seven families is a kind of command the theorems about threads are about, fails late, unregisters early and retires as its start and cancel do, and has no event twice |
| StartCancel.OnlyScansShareAnEvent | wlan/hal/gscan.cpp:425-431 | of any two families only a scan and full scan results listen to an event in common |
| StartCancel.ListensTo | wlan/hal/wifi_hal.cpp:807-828 | the events each family registers for, by their numbers, and no others |
| StartCancel.Cancel | wlan/hal/wifi_logger.cpp:636-644 | what the cancel of each family removes, whatever the driver answers; the alert handler also takes itself out of the command table |
| StartCancel.StartCommand | wlan/hal/gscan.cpp:694-718 | started if and only if there is room and every code is 0, refused with the first that is not; a refused or failed start leaves both tables as they were and frees the command; a good one adds it to both |
| StartCancel.CancelCommand | wlan/hal/common.cpp:249-262 | cancels and releases what the id finds, frees it if that was its last reference, touches no other command, and removes exactly its callbacks if and only if they are the first for its keys |
| Cleanup.SweepIsInTableOrder | wlan/hal/wifi_hal.cpp:415-431 | for any mix of cancels that remove their own entry and cancels that leave it, the i-th command of the table is cancelled in the 2i-th act and released in the next, even if ids repeat; no entry is null |
| Cleanup.SweepEndsIffNoNull | wlan/hal/wifi_hal.cpp:415-431 | the loop ends if and only if no entry of the table is null |
| Cleanup.NoCallbackIsLeft | wlan/hal/wifi_hal.cpp:433-437 | when every callback is for something an outstanding command unregisters, none is leaked |
| Cleanup.CleanUp | wlan/hal/wifi_hal.cpp:404-438 | does that in place: each command is cancelled once and released once after that, loses exactly one reference, and is alive when it is cancelled; no callback is left when each was for something a command of the table unregisters |
| Netlink.WalkFindsEncoded | wlan/hal/cpp_bindings.h:108-124 | walking over encoded attributes finds each of them, in order, and nothing else |
| Netlink.NlIterator.HasNext | wlan/hal/cpp_bindings.h:116-118 | there is a next attribute exactly when the rest of the walk is not empty |
| Netlink.NlIterator.Next | wlan/hal/cpp_bindings.h:119-121 | moves on by one attribute |
| WifiRequests.WifiRequest.Put | wlan/hal/cpp_bindings.h:193-195 | appends header, payload and padding if they fit, and otherwise nothing |
| WifiRequests.WifiRequest.AttrStart | wlan/hal/cpp_bindings.h:215-217 | opens a nest, or none if its header does not fit |
| WifiRequests.WifiRequest.AttrEnd | wlan/hal/cpp_bindings.h:218-220 | writes the length of the nest back, so that what was appended becomes one encoded attribute |
| ScanRequest.SetupRoundTrip | wlan/hal/gscan.cpp:479-552 | walking over the bytes of a request, and over its nests, gives back the base period, the bucket count, every bucket's fields and every channel list |
| ScanRequest.TypesAreUnique | wlan/hal/gscan.cpp:497-498 | attribute types tell the parts of a request apart if and only if there are at most ten buckets |
| ScanRequest.CreateSetupRequest | wlan/hal/gscan.cpp:479-552 | succeeds if and only if the whole request fits the message, and then the message reads back as the parameters; a nest that did not open is never closed |
| CachedScans.ResultsAreThere | wlan/hal/gscan.cpp:952-980 | a scan's results are the records of one attribute, at most as many as it holds and as a scan can cache |
| CachedScans.NegativeResults | wlan/hal/gscan.cpp:945-958 | a scan reports a negative number of results if and only if the driver announced 2^31 or more before them |
| CachedScans.NegativeInReply | wlan/hal/gscan.cpp:905-990 | a reply brings such a scan if and only if one of its scans announces that |
| CachedScans.NegativeHeld | wlan/hal/gscan.cpp:950-958 | after a reply the array holds such a scan if and only if it did before, or the attributes announce one before they have filled the room that was left |
| CachedScans.NegativeScanExists | wlan/hal/gscan.cpp:945-958 | a reply that brings one |
| CachedScans.GetScanResultsCommand.Store | wlan/hal/gscan.cpp:957-981 | fills the next element of the caller's array and no other |
| CachedReply.ReplyRoundTrip | wlan/hal/gscan.cpp:905-990 | a reply that a driver has written from scans gives back those scans in order, each with the id, flags, mask and count said last before its records and with the records themselves, and the last completion flag |
| CachedReply.RecordReadsBack | wlan/hal/gscan.cpp:957-981 | an 80-byte record gives back each of its fields |
| CachedReply.OnlyVendorDataIsHeard | wlan/hal/gscan.cpp:905-925 | nothing is taken from a reply that is none to a vendor command, or is without vendor data |
| CachedScans.GetScanResultsCommand.HandleResponse | wlan/hal/gscan.cpp:905-990 | after a reply the array holds the first `max` of what it held and what a decoder without any maximum finds in the reply |
| CachedScans.RetrievalRunsAsIntended | wlan/hal/gscan.cpp:870-903 | against any driver: at most ten requests, each for exactly the room left and for some; what is stored is the first of all scans sent, in order; success stops early only without room, after a round that stored nothing, or on the completion flag |
| CachedScans.GetScanResultsCommand.Execute | wlan/hal/gscan.cpp:870-903 | the retrieval, in place, is the function of that theorem; the number is set exactly on success, to the number stored |
| Rtt.NothingIsLost | wlan/hal/rtt.cpp:532-619 | over any events, what the client was given followed by what is held is what the events brought, in order |
| Rtt.CompletionGivesAll | wlan/hal/rtt.cpp:612-619 | on the first completion the client is called once, with the results of all events so far, and nothing is held afterwards |
| Rtt.OnceCompleted | wlan/hal/rtt.cpp:612-619 | the flag is never taken back: after completion each event is handed over at once, unless it says that it is not complete |
| RttEvent.EventRoundTrip | wlan/hal/rtt.cpp:532-610 | an event that a driver has written from targets and flags brings the payloads of all their results in order, and the last flag |
| RttEvent.StoredUpToFirstRefused | wlan/hal/rtt.cpp:553-606 | of a target exactly the results before the first there is no memory for are stored |
| RttEvent.LastDecides | wlan/hal/rtt.cpp:532-560 | the flag is what the last attribute says that has a say: the driver's number, or 1 for a target that runs out of memory |
| Rtt.RttCommand.HandleEvent | wlan/hal/rtt.cpp:525-625 | an event, in place, does to the history what the theorems say; both counters stay equal, and each buffer is freed once; the handler writes behind its array if and only if what is held and the places the event takes are more than 1024 |
| HexDump.RowReadsBack | wlan/hal/cpp_bindings.cpp:503-529 | the bytes of a row can be read back from its hex columns: the dash is in none of them |
| HexDump.CharactersAreShown | wlan/hal/cpp_bindings.cpp:519-525 | behind the hex columns each byte from 32 to 126 shows its character and every other a dash |
| HexDump.WriteRow | wlan/hal/cpp_bindings.cpp:504-526 | a row's text ends at 49 plus its number of bytes, at most 65 of 81, and the dash replaces a blank |
| HexDump.Log | wlan/hal/cpp_bindings.cpp:498-529 | the rows partition the data into 16 bytes each but the last, and the data can be read back from them |

## Left out

- Opening and reading the `.bts` file, the UART, rfkill, sockets, polling and threads: the script is a sequence of bytes, and the controller, the driver, the allocator and the stack's callbacks are parameters that answer each request. `xmit_cb` does not re-enter the callback.
- BtsScript.ScanRefinesNextCommand: assumes a well-formed script, and that the 16-bit word behind its last action, which the code inspects, is not that of a send command. The theorems about how runs end, hang, and treat their buffers assume nothing of the scripts; memory behind a script is zeros.
- SCO configuration (`hw_configure_sco`) and the replies to the codec commands.
- CommandLifecycle.EveryInterleavingIsSafe: the id -1 and the range-cancel commands, which work through a temporary command, are steps that remove a callback entry; the command-table operations are atomic although the code does not lock them.
- That every ranging command is released in the end: a range cancel leaves the original command in the table.
- Waiting for an event (`requestEvent`, `requestVendorEvent`), condition variables and mutexes: the lock appears as the boundary between atomic steps.
- StartCancel.StartCommand: sequential; events and other threads between its steps are the matter of `CommandLifecycle`. Significant-change, ePNO and ANQPO commands follow the same patterns and are not repeated.
- Cleanup.CleanUp: sequential, as other threads have ended by then; the table has no null command, as the loop would not end, and each command is in it once under its own id, as starts put it there.
- ScanRequest.CreateSetupRequest: allocation of the message and its netlink headers are not part of the model; a message is at most 65535 bytes (libnl allocates a page); channel and bucket counts are those of the lists, so a negative count, which would open an empty nest, does not occur; the flag that some versions of libnl add to the type of a nest is not modelled.
- CachedScans.GetScanResultsCommand.Store: elements of a results array behind the reported number keep what they held; `MAX_AP_CACHE_PER_SCAN` and the layout of the caller's structures come from headers that are not part of this model, so the limit is a parameter.
- Rtt.RttCommand.HandleEvent: what happens after a write behind the array, or at a null pointer, is not modelled; each result is opaque bytes, so the LCI and LCR pointers written into it are not modelled. The retirement of the command behind the callback is in `CommandLifecycle`.
- The nested memory-dump buffers of the logger, one-shot requests, and tables of names.
- HexDump.Log: printable characters are those of the C locale; `WifiEvent::log` also names the attributes found, which is not modelled.
