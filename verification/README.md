# OpenONU adapter: verified model of the OMCI core

The adapter drives an ONU over OMCI (ITU-T G.988). This project models its four stateful cores in Dafny and
proves what they promise, for all inputs, all interleavings and all answers of the ONU:

- **The OMCI channel and the sessions on it.** `OmciChannel` models transaction IDs, single-use callbacks and
  the transmit queue. `Session` is one step machine for the scripted FSMs (MIB download, UNI lock and unlock,
  ANI configuration, VLAN configuration): FSM state, events that goroutines are about to fire, `commChan`,
  message loops, script goroutines waiting for `true`, the last transmitted ME and the registered callbacks.
  The ONU may answer, refuse, lose or repeat anything at any time. `SessionLoops`, `SessionSafety`,
  `SessionTheorems`, `SessionLifetime`, `SessionExact`, `SessionProgress` and `SessionCycle` prove the results once; `LockSession`,
  `DownloadSession`, `AniSession` and `VlanSession` give the tables as written, the scripts and the instances.
  `SessionObject` has the FSM object with its methods and its history, `SessionChannel` runs a session over the
  channel. `BringUp` puts the download into the life of a device entry.
- **MIB synchronisation.** `MeDb` is the data base object, `MibUpload` the upload loop, `MibTemplate` the creation
  and loading of templates, `TemplateRoundTrip` and `TemplateRefines` relate the template path to the upload path.
  `Decimal` and `TemplateText` hold the printing, parsing and replacing of texts.
- **Tech profile to ANI configuration.** `TechProfile` reads a profile, `QueueLookup` finds the priority queues,
  `AniTables` and `AniPolicy` derive the tables, `AniOrder` says what Go's map order decides about them, and
  `AniEndToEnd` goes from the profile through the session to what the ONU acknowledged. `UniPorts` numbers the ports.
- **OpenFlow flow to tagging rules.** `VlanFlow` reads a flow, `VlanCompile` chooses the entries and `EvtocdRules`
  packs them; `EvtocdMeaning` states what a table does to frames after clause 9.3.13 of ITU-T G.988, and
  `VlanEndToEnd` goes from the flow through the session to the treated frames.

`Types` and `Bits` are shared vocabulary. Objects and in-place loops of the source are classes, arrays and loops
here; each method is proved against a function of the old state, and the lemmas are about these functions.
To verify: `dafny verify dfyconfig.toml`.

## Where code and promise differ

The model follows the code; each of these has its own lemma, and the exact condition under which the promise holds.

- The lock handler waits for an ME named "VEIP", the ME library's name is "VirtualEthernetInterfacePoint": with a
  VEIP port no lock or unlock session ends (`LockSession.CompletableIffNoVeip`).
- A session that follows one that was cut short can be completed by a late answer, or get a `true` that was meant
  for the earlier one (`LockStale`). The drain loop at the start of a session cannot help: the channel is unbuffered.
  A disabled FSM guarantees its next sessions iff nothing is left over (`SessionExact.NextSessionSoundIff`).
- The test that keeps autonomous frames away from the callbacks masks the acknowledge bit out instead of selecting
  it (`OmciChannel.AlarmConsumesCallback`, exactly when it keeps them away: `OmciChannel.AutonomousIsIgnoredIff`).
- The iteration order of the gem port map decides the queues and even the strictness of a queue when a gem port
  lacks its queue (`AniOrder.OrderDecidesStrictness`), the p-bit table when gem ports claim the same bit, and the
  policy when weights differ (exactly when not: `AniOrder.RecordsOrder`, `PbitOrder`, `PoliciesOrder`).
- The early break of the queue search is harmless iff no queue below 0x8000 carries the upstream pattern
  (`QueueLookup.LookupExact`).
- The priority of a flow is not masked to three bits: 8 copies, 15 strips the tag, 16 and above spill into unused
  bits (`VlanCompile.TranslationMeaning`, `VlanCompile.FlowPacking`).
- Creating a template leaves its placeholders in the live data base, unless they are there already
  (`MibTemplate.UnmarkedIff`).
- A port number decodes back iff its parts fit their bits; larger parts are only warned about
  (`UniPorts.PortNumDecodesIff`).
- Numbers that are stored with another width than 32 bits are refused after an upload and accepted after a template
  was loaded (`TemplateRefines.Uint32Agrees`).

## Model

| member | source | states |
|---|---|---|
| `OmciChannel.OmciCC.GetNextTid` | internal/pkg/onuadaptercore/omci_cc.go:467-487 | draws the next ID of a priority and moves its counter, which wraps inside its half of the 16-bit range |
| `OmciChannel.OmciCC.SendRequest` | internal/pkg/onuadaptercore/omci_cc.go:356-376 | registers the callback under the request's ID (displacing an older one) and queues the frame at the back |
| `OmciChannel.OmciCC.SendNextRequest` | internal/pkg/onuadaptercore/omci_cc.go:379-465 | the transmit loop: exactly the frames before the first failing device lookup or transmission leave the queue, in order; the failing one stays at the front |
| `OmciChannel.OmciCC.ReceiveMessage` | internal/pkg/onuadaptercore/omci_cc.go:185-244 | accepts a frame iff it is long enough, decodes, passes the type test and its ID is registered; then the callback runs and is removed, otherwise nothing changes |
| `OmciChannel.IdsAndCallbacks` | internal/pkg/onuadaptercore/omci_cc.go:467-487 | over every interleaving the k-th ID is 1 + k mod 0x7FFF or 0x8000 + k mod 0x8000, in 1..0x7FFF or 0x8000..0xFFFF, and each callback runs at most once and only after its request was sent |
| `OmciChannel.QueueConserved` | internal/pkg/onuadaptercore/omci_cc.go:364-376 | for any interleaving of sends and pumps, with any failures: transmitted frames followed by queued frames are the frames handed to send, in order, none lost, none transmitted twice |
| `OmciChannel.IdZeroIsIgnored` | internal/pkg/onuadaptercore/omci_cc.go:218-228 | in every reachable state a frame with ID 0 leaves the channel as it is |
| `OmciChannel.WhatConsumes` | internal/pkg/onuadaptercore/omci_cc.go:218-243 | over every run, exactly which callback a frame consumes: that of the last request sent under its ID, if it is unanswered and the frame is long enough, decodes and gets past the masked type test; every other frame changes nothing |
| `OmciChannel.AutonomousIsIgnoredIff` | internal/pkg/onuadaptercore/omci_cc.go:183-227 | in every reachable state a frame without the acknowledge bit leaves the channel alone iff it is short, does not decode, has type 0 or no request with its ID is unanswered: the test masks the bit out instead of selecting it |
| `OmciChannel.AlarmConsumesCallback` | internal/pkg/onuadaptercore/omci_cc.go:183-184 | concrete run: an autonomous alarm (type 0x10) carrying a drawn ID is taken for the response, against the comment of the function |
| `OmciChannel.SameIdIff` | internal/pkg/onuadaptercore/omci_cc.go:467-487 | in every reachable state two drawn requests share their ID iff they have the same priority and their ranks among its requests agree modulo the full range |
| `OmciChannel.CloseRequestsDiffer` | internal/pkg/onuadaptercore/omci_cc.go:467-487 | requests with less than a full range of draws between them have different IDs, also across the priorities |
| `OmciChannel.Correlation` | internal/pkg/onuadaptercore/omci_cc.go:229-242 | after request d was sent, and while fewer than a full range lies between d and the requests sent since, the first response with its ID runs d's callback and no other |
| `SessionChannel.ChannelRefines` | internal/pkg/onuadaptercore/omci_cc.go:356-376 | every run of a session over the shared channel, with wrapping IDs, other users' requests, frames of any kind and displaced callbacks, is a run of the session model |
| `SessionChannel.SoundOverChannel` | internal/pkg/onuadaptercore/omci_cc.go:229-242 | so over the channel, too, a done session had its whole script acknowledged in order, while none was cut short with something outstanding |
| `SessionChannel.AnsweredIff` | internal/pkg/onuadaptercore/omci_cc.go:229-242 | in every reachable state an open request of the session went out as exactly one request d of the channel, with an ID of the upper half, and a frame taken for a response is its answer iff d is the last request that anybody sent under the frame's ID |
| `SessionChannel.AnswerIsDelivered` | internal/pkg/onuadaptercore/omci_cc.go:521-542 | in every reachable state an answer is queued for the message loop as it is and closes its request; any other frame leaves the FSM alone |
| `SessionChannel.AnswerableWhileClose` | internal/pkg/onuadaptercore/omci_cc.go:467-487 | that is so while fewer than a full range of IDs lies between the request and all others |
| `SessionObject.AdapterFsm.Event` | internal/pkg/onuadaptercore/omci_ani_config.go:115-160 | an event moves the FSM exactly when the table has a row and then runs the enter function; otherwise nothing changes |
| `SessionCycle.DoneReturns` | internal/pkg/onuadaptercore/omci_ani_config.go:432-468 | over every run of an FSM whose last state resets itself: whenever it is done the reset is on its way, and reset and restart disable it |
| `SessionCycle.LiveIsResettable` | internal/pkg/onuadaptercore/uniportadmin.go:359-373 | in every reachable live state a reset from outside, or the expired wait of a goroutine, disables the FSM |
| `SessionObject.AdapterFsm.HandleResponse` | internal/pkg/onuadaptercore/mib_download.go:133-224 | the response handlers: only a Success response that matches the last transmitted ME lets the FSM proceed or hands `true` to the waiting goroutine |
| `SessionObject.AdapterFsm.ProcessMessage` | internal/pkg/onuadaptercore/omci_ani_config.go:493-527 | one round of a message loop: an abort message ends the loop, a response is handled; the object stays what its history makes of it |
| `SessionObject.AdapterFsm.PerformNext` | internal/pkg/onuadaptercore/mib_download.go:226-269 | a script goroutine sends the next ME of its list and waits, or reports the end of the list as an event; the object stays what its history makes of it |
| `SessionObject.AdapterFsm.WaitforOmciResponse` | internal/pkg/onuadaptercore/uniportadmin.go:359-373 | the wait ends with the handler's `true`, or after 30 s with a reset |
| `SessionObject.AdapterFsm.StartSession` | internal/pkg/onuadaptercore/onu_uni_tp.go:634-660 | a session starts only from the disabled state |
| `SessionObject.ObjectConserves` | internal/pkg/onuadaptercore/omci_ani_config.go:447-468 | for every object, whatever its methods were called with: message loops minus queued aborts is 1 iff it is live, one restart is pending iff it is resetting, no timeout event ever |
| `SessionObject.DoneObject` | internal/pkg/onuadaptercore/omci_ani_config.go:493-605 | an object in its first session, or none of whose sessions was cut short: done means that everything of its script was acknowledged in order |
| `SessionObject.DisabledObject` | internal/pkg/onuadaptercore/omci_ani_config.go:275-299 | a disabled object can be started again without a care iff nothing of its earlier sessions is left over |
| `SessionLoops.LoopAbortConservation` | internal/pkg/onuadaptercore/omci_ani_config.go:447-468 | in every reachable state of every FSM: message loops minus queued abort messages is 1 if the FSM is neither disabled nor resetting and 0 otherwise; a restart is pending exactly while resetting |
| `SessionLoops.RestartOnlyEndsResetting` | internal/pkg/onuadaptercore/uniportadmin.go:217-273 | a pending restart never hits a live session, although some tables have restart rows for the live states |
| `SessionLoops.TimeoutWouldLeakALoop` | internal/pkg/onuadaptercore/onu_device_entry.go:317-318 | the timeout rows no code fires would break the conservation: a second message loop without an abort message |
| `SessionExact.NextSessionSoundIff` | internal/pkg/onuadaptercore/omci_ani_config.go:275-299 | in every reachable disabled state of an FSM, all next sessions (any script that fits it, any ONU, scheduler and resets) keep the promise iff no registered request, no response the handler reacts to, no handed `true`, no script goroutine and no event that moves a session on is left over |
| `SessionTheorems.CleanSessionSound` | internal/pkg/onuadaptercore/omci_ani_config.go:493-605 | a session that starts with nothing left over, under any ONU, scheduler, resets and expiring waits: its traffic is always an initial part of send/acknowledge along the script, and Done means all of it, once each and in order |
| `SessionTheorems.SentNeedsPredecessors` | internal/pkg/onuadaptercore/mib_download.go:271-285 | in such a session an ME that was sent had all its predecessors sent and acknowledged |
| `SessionTheorems.FirstSessionSound` | internal/pkg/onuadaptercore/onu_device_entry.go:303-336 | the first session of an FSM is sound without any assumption |
| `SessionLifetime.EverySessionSound` | internal/pkg/onuadaptercore/omci_ani_config.go:275-299 | over the whole life of an FSM: as long as no reset and no expired wait ends an unfinished session with something outstanding, every session starts clean and is sound; resets of an FSM that is disabled or waits for nothing do no harm |
| `SessionProgress.CompletableIffAnswerable` | internal/pkg/onuadaptercore/uniportadmin.go:303-312 | some run of a new FSM reaches Done iff the response handler reacts to every ME of the script |
| `LockSession.TablesAgree` | internal/pkg/onuadaptercore/uniportadmin.go:75-139 | both transition tables, row by row, are instances of the generic machine |
| `LockSession.LockOrder` | internal/pkg/onuadaptercore/uniportadmin.go:184-357 | everything a lock session sends sets AdministrativeState 1, in an unlock session 0, on UNI-G, VEIP or ONU-G; a lock session touches ONU-G only after every supported port was acknowledged, an unlock session a port only after ONU-G was, for any port order; done means exactly one acknowledged set per PPTP and VEIP port, with its entity, and one for ONU-G 0 |
| `LockSession.LockReturns` | internal/pkg/onuadaptercore/uniportadmin.go:200-238 | in every reachable state with uniStAdminDone, of both FSMs, the reset is posted, and it leads back to uniStDisabled without anybody's help |
| `LockSession.LockTwice` | internal/pkg/onuadaptercore/uniportadmin.go:200-238 | for any port lists without VEIP, two sessions in a row can be completed without a reset from outside |
| `LockSession.UniStepsShape` | internal/pkg/onuadaptercore/uniportadmin.go:320-357 | the port loop sends only UNI-G and VEIP sets, never the ONU-G set |
| `LockSession.CompletableIffNoVeip` | internal/pkg/onuadaptercore/uniportadmin.go:303-312 | a lock or unlock session can reach Done iff the ONU has no VEIP port: the handler waits for a class name ("VEIP") that the ME library does not use |
| `LockStale.LateReplyCompletesNextSession` | internal/pkg/onuadaptercore/uniportadmin.go:217-238 | concrete run: the late answer of a session that was reset completes the next session, whose own request is unacknowledged |
| `LockStale.AnyRegisteredRequestCompletesUnlock` | internal/pkg/onuadaptercore/uniportadmin.go:217-238 | from every disabled state with any still registered request and no blocked handler, the next unlock session can reach its end with nothing acknowledged |
| `LockStale.ExpiredWaitBreaksLockOrder` | internal/pkg/onuadaptercore/uniportadmin.go:157-171 | concrete run: the answer to an expired wait makes the next lock session lock ONU-G before its port's lock was acknowledged; draining the unbuffered channel cannot prevent it |
| `DownloadSession.TableAgrees` | internal/pkg/onuadaptercore/onu_device_entry.go:303-325 | the download table, row by row, is an instance of the generic machine |
| `DownloadSession.BridgeSetupPerPort` | internal/pkg/onuadaptercore/mib_download.go:226-269 | for every port, in any port order, the script holds MBSP, MBPCD and EVTOCD in this order and nothing else |
| `DownloadSession.DownloadSound` | internal/pkg/onuadaptercore/mib_download.go:133-269 | the first download of an entry's life, under any interference: dlStDownloaded implies that exactly the requests of the ports it was started with were acknowledged, one after the other, with all their attributes |
| `DownloadSession.DownloadOfPorts` | internal/pkg/onuadaptercore/omci_cc.go:648-895 | a download that is started with some ports acknowledges, when done, precisely GAL (payload 48), ONU2-G (mode 5) and per port MBSP, MBPCD and EVTOCD, each attribute written out |
| `DownloadSession.DownloadReturns` | internal/pkg/onuadaptercore/mib_download.go:59-71 | in every reachable state with dlStDownloaded the reset is posted, and it leads back to dlStDisabled |
| `DownloadSession.DownloadTwice` | internal/pkg/onuadaptercore/mib_download.go:59-90 | two downloads in a row can be completed without a reset from outside |
| `DownloadSession.DownloadCompletable` | internal/pkg/onuadaptercore/mib_download.go:133-224 | every port list can be downloaded: the handler reacts to every ME of the script |
| `BringUp.OnuDeviceEntry.TransferSystemEvent` | internal/pkg/onuadaptercore/onu_device_entry.go:416-436 | relays MibDatabaseSync iff devState is below 1 and MibDownloadDone iff it is below 3, and raises devState to that number |
| `BringUp.BringUpOrder` | internal/pkg/onuadaptercore/device_handler.go:1263-1282 | over the whole life of a device entry the relayed events are an initial part of [MibDatabaseSync, MibDownloadDone], the download FSM is started at most once, and it downloads the ports that MibDatabaseSync was processed with |
| `BringUp.SyncStartsDownload` | internal/pkg/onuadaptercore/device_handler.go:1263-1282 | MibDatabaseSync is relayed iff the upload was ever in sync; from then on its goroutine either still has to run, finding the download FSM disabled and starting it, or has started it |
| `BringUp.BringUpCompletable` | internal/pkg/onuadaptercore/onu_device_entry.go:416-436 | for any ports some life relays both events, with the whole download of these ports acknowledged |
| `BringUp.DoneMeansDownloaded` | internal/pkg/onuadaptercore/mib_download.go:59-71 | at the moment MibDownloadDone is relayed the ONU has acknowledged exactly the download of the ports that MibDatabaseSync was processed with |
| `QueueLookup.FindQueues` | internal/pkg/onuadaptercore/omci_ani_config.go:223-252 | the search loop finds what the scan of the sorted queue keys with its early break finds, and keeps the old queues otherwise |
| `QueueLookup.LookupExact` | internal/pkg/onuadaptercore/omci_ani_config.go:203-270 | with exactly one fitting queue (ID at least 0x8000) upstream and one (ID below) downstream, whatever else the MIB holds: the loop picks precisely those two iff no queue below 0x8000 carries the upstream pattern |
| `QueueLookup.OwnQueuesAre` | internal/pkg/onuadaptercore/omci_ani_config.go:207-252 | what the search asks for, read off the RelatedPort attributes of class 277: T-Cont above and priority below in the upstream range, port number from 1 and priority in the downstream range, one queue each |
| `QueueLookup.ScanMeaning` | internal/pkg/onuadaptercore/omci_ani_config.go:220-252 | for any queues: the search goes through them in order up to the first point at which it has found one each way, and returns the last fitting one each way up to there |
| `QueueLookup.UsualNumberingIsSafe` | internal/pkg/onuadaptercore/omci_ani_config.go:209-219 | with T-Conts numbered from 0x8000 and slots below 0x80 that condition always holds |
| `AniTables.CollectGemPorts` | internal/pkg/onuadaptercore/omci_ani_config.go:201-270 | the loop over the gem port map, in whatever order, yields the records of its rounds over the sorted queue keys |
| `AniTables.EveryGemGetsItsQueues` | internal/pkg/onuadaptercore/omci_ani_config.go:203-270 | when every gem port has its queues, every record holds its gem port's own data and precisely its two queues, whatever the iteration order |
| `AniTables.UnservedGemInherits` | internal/pkg/onuadaptercore/omci_ani_config.go:201-235 | a gem port without a fitting queue takes the queue of the gem port that happened to come before it (0 if first) |
| `AniTables.FillPbitTable` | internal/pkg/onuadaptercore/omci_ani_config.go:378-399 | the nested loops fill entry i with the first gem port that claims bit i |
| `AniTables.PbitEntry` | internal/pkg/onuadaptercore/omci_ani_config.go:378-399 | an entry is 0 exactly when no gem port claims the bit, otherwise the ID of the first that does |
| `AniOrder.RecordsOrder` | internal/pkg/onuadaptercore/omci_ani_config.go:203-270 | the records are the same for every iteration order of the gem port map iff, in each direction, all gem ports have a queue in the MIB or there is none to inherit |
| `AniOrder.PbitOrder` | internal/pkg/onuadaptercore/omci_ani_config.go:203-399 | a p-bit entry is the same for every iteration order of the gem port map iff no two different gem ports claim the bit (or the MIB has no queue) |
| `AniOrder.PolicyOrder` | internal/pkg/onuadaptercore/omci_ani_config.go:203-716 | with the upstream queues fixed in that sense, strictness never depends on the iteration order, and the policy as a whole does not iff the queue is strict or its weights agree |
| `AniOrder.PoliciesOrder` | internal/pkg/onuadaptercore/omci_ani_config.go:203-716 | the policies of all queues are the same for every iteration order iff the upstream queues are fixed and every queue is strict or its weights agree |
| `AniOrder.ServedOrder` | internal/pkg/onuadaptercore/omci_ani_config.go:203-716 | when every gem port has its queues in the MIB, the order decides nothing but p-bit conflicts and contests of differing weights |
| `AniOrder.OrderDecidesStrictness` | internal/pkg/onuadaptercore/omci_ani_config.go:203-270 | concrete MIB and profile: one iteration order makes queue 0x8001 strict, the other gives it weight 10, because a gem port without a queue inherits |
| `AniTables.MapperAttributes` | internal/pkg/onuadaptercore/omci_ani_config.go:400-410 | builds one pointer attribute per nonzero entry and reports whether there is any |
| `AniTables.PointersMeaning` | internal/pkg/onuadaptercore/omci_ani_config.go:400-410 | the pointer attribute of p-bit i is present iff entry i is nonzero, and holds it |
| `AniPolicy.CollectPolicies` | internal/pkg/onuadaptercore/omci_ani_config.go:704-716 | the ordered map gets each upstream queue once, in order of first mention, with the queue's policy |
| `AniPolicy.PolicyMeaning` | internal/pkg/onuadaptercore/omci_ani_config.go:707-741 | a queue is strict iff some gem port on it is not "WRR", otherwise it has the first WRR weight; the 0xFFFF marker is never a weight |
| `AniPolicy.MentionedOnce` | internal/pkg/onuadaptercore/omci_ani_config.go:719-742 | the queues that are set are exactly the distinct upstream queues of the gem ports |
| `AniPolicy.MentionedInOrder` | internal/pkg/onuadaptercore/omci_ani_config.go:704-722 | they are set in the order in which the gem ports first mention them |
| `AniSession.TableAgrees` | internal/pkg/onuadaptercore/omci_ani_config.go:115-145 | the ANI table, row by row, is an instance of the generic machine |
| `AniSession.AniSessionSound` | internal/pkg/onuadaptercore/omci_ani_config.go:301-766 | aniStConfigDone implies acknowledged Success, in this order and with all attributes written out, for mapper, MBPCD, T-Cont, one CTP and one IWTP per gem port record, one set per distinct upstream queue, and the mapper's pointers |
| `AniSession.NoPointersGivesUp` | internal/pkg/onuadaptercore/omci_ani_config.go:412-424 | a job without p-bit pointers: in its last state the reset is posted, and it disables the FSM |
| `AniSession.AniReturns` | internal/pkg/onuadaptercore/omci_ani_config.go:430-468 | in every reachable state with aniStConfigDone the reset is posted, and it leads back to aniStDisabled |
| `AniSession.AniTwice` | internal/pkg/onuadaptercore/omci_ani_config.go:275-299 | two configurations in a row can be completed without a reset from outside |
| `AniSession.AniCompletable` | internal/pkg/onuadaptercore/omci_ani_config.go:410-605 | for every job some run reaches aniStConfigDone, also for one without p-bit pointers, whose last state posts a reset that has to lose the race |
| `AniEndToEnd.PrepareJob` | internal/pkg/onuadaptercore/omci_ani_config.go:174-272 | the job: first T-Cont of the sorted list, alloc ID, records, policies and mapper pointers, all from the data base and the configuration, for some iteration order |
| `AniEndToEnd.AniTakesEffect` | internal/pkg/onuadaptercore/omci_ani_config.go:174-766 | from tech profile and MIB to the ONU: after a clean session that is done, acknowledged are the mapper and its bridge port, the profile's alloc ID on the first T-Cont, for every gem port a CTP whose upstream and downstream pointers are its own queues in the MIB and then an IWTP, for every upstream queue strict priority iff some gem port on it is not WRR and otherwise the first weight, and then the mapper, whose pointer of p-bit i is the first gem port claiming it and is missing iff none does; all requests with their attributes |
| `VlanFlow.GetFlowOfbFields` | internal/pkg/onuadaptercore/device_handler.go:1601-1675 | the match loop: the IGMP workaround fires iff an IP_PROTO 2 field occurs; otherwise the last VLAN_VID decides |
| `VlanFlow.MatchVidIsLast` | internal/pkg/onuadaptercore/device_handler.go:1625-1635 | the matched VID comes from the last VLAN_VID field, VID_PRESENT if there is none |
| `VlanFlow.GetFlowActions` | internal/pkg/onuadaptercore/device_handler.go:1677-1720 | the action loop returns the VID and priority octet of the last set-field actions |
| `VlanFlow.AddFlowItemToUniPort` | internal/pkg/onuadaptercore/device_handler.go:1723-1785 | each outcome with its exact condition: invalid metadata iff 0, skipped iff an IP_PROTO 2 field occurs, rejected iff a VID is matched and none set, or the FSM runs, configured otherwise; then the tech profile is bits 32 to 47 of the metadata, the VIDs and the priority the last ones in the flow |
| `VlanFlow.AcceptedRanges` | internal/pkg/onuadaptercore/device_handler.go:1758-1777 | accepted VIDs are at most 0x1000; transparent iff no VID or the reserved VID is set; the new VID is the last set VID, masked; the priority octet is not masked |
| `EvtocdRules.FillRule` | internal/pkg/onuadaptercore/omci_vlan_config.go:484-506 | the slice that is filled word by word is the big-endian encoding of the rule |
| `EvtocdRules.PutUint32` | internal/pkg/onuadaptercore/omci_vlan_config.go:486-489 | writes the four octets of one word and leaves the others alone |
| `EvtocdRules.FilterWordIsSum` | internal/pkg/onuadaptercore/omci_vlan_config.go:39-48 | no field of a filter word spills into another: shifts and ors are a sum |
| `EvtocdRules.DecodeEncode` | internal/pkg/onuadaptercore/omci_vlan_config.go:39-54 | decoding at the offsets of clause 9.3.13 returns the fields written, but for the upper half of an oversized priority, which lands in unused bits |
| `EvtocdRules.LosslessIff` | internal/pkg/onuadaptercore/omci_vlan_config.go:553-556 | packing is lossless iff both treatment priorities are below 16 |
| `VlanCompile.UniVlanConfigFsm.constructor` | internal/pkg/onuadaptercore/omci_vlan_config.go:119-144 | the rule fields after the constructor's defaults and adjustments |
| `VlanCompile.UniVlanConfigFsm.PerformConfigEvtocdEntries` | internal/pkg/onuadaptercore/omci_vlan_config.go:480-681 | the chosen entries (transparent, translation, stacking) in order, encoded |
| `VlanCompile.FlowPacking` | internal/pkg/onuadaptercore/omci_vlan_config.go:541-556 | for every accepted flow packing is lossless iff no translation with a priority of 16 or more is written |
| `VlanCompile.TransparentMeaning` | internal/pkg/onuadaptercore/omci_vlan_config.go:480-506 | transparent leaves every frame unchanged |
| `VlanCompile.TranslationMeaning` | internal/pkg/onuadaptercore/omci_vlan_config.go:530-556 | translation rewrites exactly the matched VID, or tags untagged frames if none is matched, and touches no other frame, iff the priority octet is at most 8 |
| `VlanCompile.StackingMeaning` | internal/pkg/onuadaptercore/omci_vlan_config.go:579-657 | stacking tags untagged frames at priority 0 and retags VID 0 frames keeping their priority; all other frames pass |
| `VlanCompile.StackingDisjoint` | internal/pkg/onuadaptercore/omci_vlan_config.go:586-645 | no frame is matched by both stacking entries |
| `VlanCompile.Priority15DropsTheTag` | internal/pkg/onuadaptercore/omci_vlan_config.go:553-554 | a priority octet of 15 makes translation strip the tag of the matched frames |
| `VlanCompile.FlowCompilation` | internal/pkg/onuadaptercore/device_handler.go:1723-1785 | for every accepted flow the installed table does to every frame what the flow asks iff it is not a translation with a priority above 8 |
| `VlanSession.TableAgrees` | internal/pkg/onuadaptercore/omci_vlan_config.go:153-176 | the VLAN table is an instance of the generic machine; no row leads into the cleanup states |
| `VlanSession.VlanSound` | internal/pkg/onuadaptercore/omci_vlan_config.go:233-273 | vlanStConfigDone implies that the filter for the new VID (unless transparent), the TPIDs and all entries were sent and acknowledged in order, each with its attributes |
| `VlanSession.VlanStaysDone` | internal/pkg/onuadaptercore/omci_vlan_config.go:275-283 | nothing but a reset from outside ends vlanStConfigDone |
| `VlanSession.VlanWaits` | internal/pkg/onuadaptercore/omci_vlan_config.go:206-231 | without a tech profile the session waits with nothing sent, and once the ANI side is done it continues and can be completed |
| `VlanSession.WaitingSendsNothing` | internal/pkg/onuadaptercore/omci_vlan_config.go:206-231 | in every reachable waiting state nothing was sent, and the report of the ANI side leads to the first request |
| `VlanSession.VlanCompletable` | internal/pkg/onuadaptercore/omci_vlan_config.go:377-446 | every VLAN job can be completed |
| `VlanEndToEnd.FlowTakesEffect` | internal/pkg/onuadaptercore/omci_vlan_config.go:448-685 | from the flow to the frames: once the session is done, what the ONU acknowledged makes its table treat every frame as the flow asks, and at every moment before, each frame is treated that way or passes unchanged (translation: priority at most 8) |
| `MeDb.OnuDeviceDB.PutMe` | internal/pkg/onuadaptercore/onu_device_db.go:50-82 | stores an ME or merges its attributes into the stored ones; OnuData is dropped |
| `MeDb.OnuDeviceDB.GetMe` | internal/pkg/onuadaptercore/onu_device_db.go:84-94 | returns the stored attributes, if any |
| `MeDb.OnuDeviceDB.GetSortedInstKeys` | internal/pkg/onuadaptercore/onu_device_db.go:109-122 | strictly ascending, exactly the instances of the class, for any map order |
| `MeDb.SortedUnique` | internal/pkg/onuadaptercore/onu_device_db.go:119-121 | there is only one such list, so the map order cannot show |
| `MibUpload.MibUploader.HandleUploadResponse` | internal/pkg/onuadaptercore/mib_sync.go:292-313 | takes over the announced number and requests the next ME, or falls back to Starting |
| `MibUpload.MibUploader.HandleUploadNextResponse` | internal/pkg/onuadaptercore/mib_sync.go:315-346 | stores the reported ME, then requests the next one or creates the template and signals success |
| `MibUpload.UploadExact` | internal/pkg/onuadaptercore/mib_sync.go:292-346 | with N > 0 announced commands the numbers requested are 0..N-1 once each in order, N minus uploadSequNo falls to 0, and exactly the N-th report completes the upload |
| `MibUpload.InSyncIff` | internal/pkg/onuadaptercore/mib_sync.go:292-346 | whatever is announced and however many reports follow: in sync iff a positive number was announced and at least as many reports came; after an announcement of 0 the FSM stays in Starting and nothing but the upload itself was ever requested |
| `MibUpload.LastWriterWins` | internal/pkg/onuadaptercore/onu_device_db.go:50-82 | the data base holds an attribute iff some report of its ME mentions it, with the value of the last such report |
| `MibTemplate.CreateMibTemplate` | internal/pkg/onuadaptercore/mib_sync.go:469-517 | the document for any iteration order of the maps; the live data base keeps the placeholders |
| `MibTemplate.TemplateDocument` | internal/pkg/onuadaptercore/mib_sync.go:477-507 | the document is name, date and one object per class with its number and one object per instance with its number and attributes, and nothing else |
| `MibTemplate.PlaceholdersMeaning` | internal/pkg/onuadaptercore/mib_sync.go:490-503 | "%SERIAL_NUMBER%" replaces the serial number of classes 6 and 256, "%MAC_ADDRESS%" the MAC address of class 134, and nothing else changes |
| `MibTemplate.UnmarkedIff` | internal/pkg/onuadaptercore/mib_sync.go:474-505 | creating a template leaves the live data base as it was iff every instance of class 6, 256 and 134 holds its placeholder already |
| `MibTemplate.LoadMibTemplate` | internal/pkg/onuadaptercore/mib_sync.go:133-178 | the nested loops store every entry with decimal keys and a supported class exactly once, in some order; false iff there is none |
| `Decimal.ParseItoa` | internal/pkg/onuadaptercore/mib_sync.go:139-147 | parsing inverts printing for every 16-bit key |
| `Decimal.ParseRange` | internal/pkg/onuadaptercore/onu_uni_tp.go:453-460 | parsing takes exactly the numbers of 16 and of 32 bits |
| `Decimal.NotDecimal` | internal/pkg/onuadaptercore/mib_sync.go:139-147 | a key with a character that is no digit is skipped |
| `TemplateText.ReplaceNext` | internal/pkg/onuadaptercore/mib_sync.go:126-130 | every occurrence of a token is replaced, from left to right |
| `TemplateText.SpecializeMeaning` | internal/pkg/onuadaptercore/mib_sync.go:126-130 | the tokens become the serial number and the MAC address, and texts without a token stay |
| `TemplateText.Base64Reads` | internal/pkg/onuadaptercore/mib_sync.go:508-513 | octets read back from their base64 text |
| `TemplateText.Float64IsNearest` | internal/pkg/onuadaptercore/mib_sync.go:131-134 | any number becomes the nearest float64, of two equally near the one with the even mantissa |
| `TemplateText.ExactBelowTwo53` | internal/pkg/onuadaptercore/onu_device_db.go:98-101 | numbers below 2^53 survive float64 exactly |
| `TemplateRoundTrip.RereadMeaning` | internal/pkg/onuadaptercore/mib_sync.go:127-134 | what becomes of each kind of value on its way through the document |
| `TemplateRoundTrip.RoundTrip` | internal/pkg/onuadaptercore/mib_sync.go:46-165 | loading a created template gives exactly the instances of the seventeen supported classes, ONU-G and CircuitPack with the loading ONU's serial number, the IP host with its MAC address, all other numbers and plain texts as they were, for all iteration orders; the loader's type assertions hold |
| `TemplateRoundTrip.SerialLacksToken` | internal/pkg/onuadaptercore/mib_sync.go:364-369 | a serial number of 12 characters is too short to hold a token |
| `TemplateRefines.Uint32Agrees` | internal/pkg/onuadaptercore/onu_device_db.go:96-107 | getUint32Attrib reads a value the same before and after the round trip iff a number is stored as uint32 |
| `TemplateRefines.TemplateRefinesUpload` | internal/pkg/onuadaptercore/mib_sync.go:474-505 | for every uploaded MIB with uint32 RelatedPorts: from template or from upload, the ONU has the same sorted instances and every gem port list gets the same queues |
| `UniPorts.DeviceHandler.AddUniPort` | internal/pkg/onuadaptercore/device_handler.go:1414-1437 | adds the port under its number unless that number is taken |
| `UniPorts.DeviceHandler.CreateUniPorts` | internal/pkg/onuadaptercore/device_handler.go:1217-1238 | adds the UNI-G instances and then the VEIP instances, both ascending, with one running counter |
| `UniPorts.FirstWins` | internal/pkg/onuadaptercore/device_handler.go:1217-1238 | for any number of instances: the ports are the numbers given out, and each belongs to the first instance that was given it |
| `UniPorts.Numbering` | internal/pkg/onuadaptercore/device_handler.go:1217-1238 | with at most 16 instances and any intfID and onuID, n ports with distinct numbers result, UNI j being the j-th instance, and the numbers decode to (intfID, onuID, j) iff both fit their octets |
| `UniPorts.PortNumDecodesIff` | internal/pkg/onuadaptercore/platform.go:126-140 | a port number decodes to its parts iff intfID and onuID are below 256 and the UNI ID is below 16 |
| `UniPorts.NumberingIff` | internal/pkg/onuadaptercore/platform.go:126-140 | all UNIs of an ONU decode iff there is none, or intfID and onuID are below 256 and there are at most 16 |
| `TechProfile.OnuUniTechProf.ReadGemPorts` | internal/pkg/onuadaptercore/onu_uni_tp.go:517-560 | the gem port loop: all elements up to the announced number, or no configuration of the UNI at all if a priority exceeds 7 |
| `TechProfile.OnuUniTechProf.ReadAniSideConfigFromTechProfile` | internal/pkg/onuadaptercore/onu_uni_tp.go:432-581 | reports the step iff path, store and profile are fine; then the configuration is the profile's, on every later failure the UNI has none |
| `TechProfile.AcceptedProfile` | internal/pkg/onuadaptercore/onu_uni_tp.go:515-568 | an accepted profile yields gem ports exactly 0..k-1, entry i from element i, priorities at most 7, iff the 16-bit index does not overflow |
| `TechProfile.IndicationMeaning` | internal/pkg/onuadaptercore/onu_uni_tp.go:438-465 | the UNI's indication takes over the profile's type and the low 16 bits of its number, unless that exceeds 32 bits, and keeps whether the configuration is done |
| `TechProfile.ConfigMeaning` | internal/pkg/onuadaptercore/onu_uni_tp.go:500-568 | a profile is taken over iff it announces and holds a gem port and no priority read exceeds 7; alloc ID, policy and every field of every gem port are written out |

## Left out

- Session: the runs are stated over a step machine on values, because goroutines interleave between the methods of `SessionObject`; a commChan never fills up or closes, and a send function never returns nil.
- Session: the last transmitted ME belongs to the channel and is written after the send; here sending and writing it is one step, and one session at a time uses the channel. What other FSMs sent before is the parameter of the session's start.
- SessionChannel: one session at a time runs over the channel, all other users are foreign requests; running a callback and posting its message is one step.
- Session: the timeout events of the tables, since no code fires them (`SessionLoops.TimeoutWouldLeakALoop` says what would happen).
- Session: wall-clock time; a wait may expire at any time.
- LockSession: that lock and unlock sessions reset each other is an outside reset that may come at any time.
- SessionTheorems.CleanSessionSound: one direction only; `SessionExact.NextSessionSoundIff` is the exact statement.
- SessionExact.NextSessionSoundIff: quantifies over all scripts that fit the FSM; with one fixed script some left-overs only make the session get stuck.
- MibUpload: the states before uploading, an ONU that answers a request with a response of another type, and the audit and resynchronisation states, which are stubs.
- MibUpload.UploadExact: an announcement of 0 commands and reports beyond the announced number, which `MibUpload.InSyncIff` covers.
- MibTemplate: JSON syntax; the document is a tree, tokens are replaced in its strings but not in its keys, and invalid UTF-8 in strings is not repaired.
- MibTemplate.LoadMibTemplate: a document that lacks an object where the code asserts one makes the original panic; such documents are excluded.
- TemplateRefines.TemplateRefinesUpload: RelatedPort attributes that are not stored as uint32, for which the two paths differ.
- EvtocdMeaning: drop eligibility bits, EtherType filters, DSCP mapping and the downstream direction; none of them is used by the entries.
- AniTables.FillPbitTable: p-bit strings shorter than eight characters, on which the original panics; `AniEndToEnd.PrepareJob` excludes them for the same reason.
- TechProfile: the log loop that reads UNI 0's entry, and the log line that reads the first downstream gem port; both panic without it. The KV store is a value the read returns.
- AniOrder.PolicyOrder: a single queue's policy when the upstream queues are not fixed; `AniOrder.PoliciesOrder` has the exact condition for all queues together, where queue 0, the default of a record, must not be anybody's upstream queue.
- AniEndToEnd.AniTakesEffect: profiles with a gem port that lacks its own queues in the MIB; such a gem port takes over another one's (`AniTables.UnservedGemInherits`, `AniOrder`).
- AniEndToEnd.PrepareJob: policies and pointers are computed with the records, the original computes them from the same records in later states.
- VlanFlow: the flag that switches the flow path off, flow removal, and fields that are only logged.
- OMCI frame encoding, ME constructors, Kafka, etcd, core and adapter proxies, logging, event reporting and MAC formatting: I/O or libraries.
