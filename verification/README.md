# Lifecycle manager, verified model

The lifecycle manager of a telematics unit keeps one power state (`NAD_LifecycleState`), four pieces of
additional information (wakeup source, CAN status, main battery, thermal state) and a registry of clients. Clients
register, ask to stay active, wake the unit and report emergencies; the microcontroller sends power modes and
status changes; every change is announced on a CommonAPI channel and mirrored to Legato through a cache.

The model has two layers.

- `Server.dfy` and `Controller.dfy` hold the objects as the program has them: classes whose methods update
  fields, loop over the registry, take and release the lock, and call each other. `Outside` stands for the proxies,
  the event channels and the clock: one ordered log of everything an observer can see.
- `Manager.dfy` is the same manager as a state machine: one step per handler, except that a power-mode handler
  stops at its two sleeps, so that other handlers may run in between. Every method above is proved to end in the
  state, and to add the outputs, of the matching steps.

The theorems are about all histories of that machine, and about two finer interleaving models.

| file | what it proves |
|---|---|
| `Names.dfy` | cleaning of names: the loops and what they compute |
| `Registry.dfy`, `RegistryHistory.dfy` | the registry as a sequence and over whole histories |
| `RegistryLock.dfy` | the registry under concurrent calls: lock safety, linearisability, release |
| `EmergencyRules.dfy` | emergency arbitration without passes or order |
| `Reachability.dfy` | which states can follow which between power-mode events; the low-power round trip |
| `StayAliveWindow.dfy` | the TCU_ONLY window with its timed waits |
| `PendingActions.dfy` | the trace of TCU parameter sends |
| `Provenance.dfy` | which event each value of the manager comes from, in the numbers of the outside; what a granted backup-battery request says about the past |
| `LegatoTranslation.dfy`, `Broadcasts.dfy` | the two broadcast channels and the cache |
| `ChannelHistories.dfy` | announcements, reports and emergency call statuses entry by entry: the event behind each and what it says |
| `LegatoMirror.dfy` | the cache under concurrent reports and deliveries |
| `Controller.dfy` | the netlink receive loop |
| `LifecycleTypes.dfy`, `Histories.dfy` | shared values; histories of any deterministic machine |

How the source is read:

- The enumerations come from interface files that are not part of this model. Each has the literals the source
  names; each that the manager reads has one further literal for all others, so the `default` and last `else`
  branches keep their meaning.
- A character is its numeric value as the compiler reads it, so both kinds of `char` are covered.
- The constructor leaves the state and the additional information uninitialised: histories start from arbitrary
  values. The status and state that a Legato call default-constructs are parameters.
- `evaluateLC_Emergency` is compiled, but both its call sites are commented out (server line 760, Legato line 179);
  the live path is `triggerLC_Emergency`. It is modelled as the public operation it is. It passes the caller's
  status through, so a caller who hands in OK gets OK, and can force the low-power state; results that exclude
  this say so, and `Reachability.EmergencyStateChange` gives the exact condition.
- One power-mode event is in progress at a time, as the events of one subscription are delivered one after the
  other; client calls, setters, netlink and Legato calls interleave with its sleeps.
- Uninitialised reads are parameters: the call status when no emergency call is made, the battery flag of an
  unnamed status kind, the wakeup reason before the first recognised message.

Claims one might expect and that do not hold:

- The cached Legato state does not always follow the manager: a registration under a blank name overwrites it
  (`Broadcasts.BlankRegistrationBreaksCache`). It does follow exactly when the last event to write it was not such a
  registration with a default that fails to fit (`Broadcasts.CacheCoherence`, and
  `Broadcasts.LegatoRegistrationCoherence` for one call).
- A Legato handler is not always given a tuple that was broadcast (`LegatoMirror.TornDeliveryHappens`). It is, whatever
  is broadcast, exactly when its five reads come from one report (`LegatoMirror.WholeIffOneReport`), as they do when
  no field is written meanwhile (`LegatoMirror.QuietDeliveryIsWhole`); and it converges (`LegatoMirror.Convergence`).
- A pending STAY_ACTIVE does not mean that some client holds a lock (`PendingActions.WakeupNeedsNoLock`), nor a pending
  STAY_INACTIVE that none does (`PendingActions.ReleaseOverridesOtherLocks`). The two agree after a sending event
  exactly under a condition on the locks held before it (`PendingActions.PendingMatchesLocks`), and at the end of a
  history exactly as `PendingActions.LastPendingMatchesLocks` says.

## Model

| member | source | states |
|---|---|---|
| Names.CleanName | lifecycle/lifecyclemgr/src/C_COMMONAPI_SERVER_LifecycleAPI_IMP.cpp:570-594 | The back-erase loop and the front-scan loop, on a string erased in place, compute the trim |
| Names.TrimCharacterised | lifecycle/lifecyclemgr/src/C_COMMONAPI_SERVER_LifecycleAPI_IMP.cpp:989-1012 | A string is the trim of a name if and only if the name is low characters, then it, then low characters, and it is empty or starts and ends above 32; so the trim is unique and `Trim` is it |
| Names.TrimIdempotent | lifecycle/lifecyclemgr/src/C_COMMONAPI_SERVER_LifecycleAPI_IMP.cpp:988-1012 | Cleaning a cleaned name changes nothing |
| Names.TrimFixedPoint | lifecycle/lifecyclemgr/src/C_COMMONAPI_SERVER_LifecycleAPI_IMP.cpp:571-592 | Exactly the names that are empty or start and end above 32 are left as they are |
| Registry.IndexOf | lifecycle/lifecyclemgr/src/C_COMMONAPI_SERVER_LifecycleAPI_IMP.cpp:1074-1085 | The search stops at the first record with the name, and at the end exactly if there is none |
| Registry.RegisterUnregisterRoundTrip | lifecycle/lifecyclemgr/src/C_COMMONAPI_SERVER_LifecycleAPI_IMP.cpp:604-626 | Registering a fresh name and unregistering any string with the same trim restores the exact sequence |
| Registry.UnregisterRemovesOne | lifecycle/lifecyclemgr/src/C_COMMONAPI_SERVER_LifecycleAPI_IMP.cpp:609-626 | Unregistering a present name removes exactly one record and keeps the order and contents of all others; the name is gone |
| EmergencyRules.SettleRefinesMap | lifecycle/lifecyclemgr/src/C_COMMONAPI_SERVER_LifecycleAPI_IMP.cpp:825-931 | Under distinct names, acceptance and the resulting flags are those of a definition on the map from names to records |
| EmergencyRules.SettlePermutes | lifecycle/lifecyclemgr/src/C_COMMONAPI_SERVER_LifecycleAPI_IMP.cpp:825-931 | Permuting any registry keeps acceptance and only permutes the resulting records |
| EmergencyRules.ExitLowersFlags | lifecycle/lifecyclemgr/src/C_COMMONAPI_SERVER_LifecycleAPI_IMP.cpp:827-849 | A NAD_ON request is accepted if and only if the requester has a flag; it then clears the first of eCall, eCallLaw, testMode on the requester alone and lowers the flag total by exactly one |
| EmergencyRules.ExitsAreBounded | lifecycle/lifecyclemgr/src/C_COMMONAPI_SERVER_LifecycleAPI_IMP.cpp:827-849 | Of k consecutive NAD_ON requests exactly min(k, own flags), hence at most three, are accepted, and no other record changes |
| EmergencyRules.LegislativeCallTakesOver | lifecycle/lifecyclemgr/src/C_COMMONAPI_SERVER_LifecycleAPI_IMP.cpp:866-893 | EMERGENCY_LAW is accepted exactly for a registered name in ON or EMERGENCY, or for the legislative client also in STAY_ALIVE_SERVICES and EMERGENCY_LAW_LP; afterwards no record has eCall, the requester has eCallLaw, all else is unchanged |
| EmergencyRules.EmergencyCallMarks | lifecycle/lifecyclemgr/src/C_COMMONAPI_SERVER_LifecycleAPI_IMP.cpp:857-865 | An EMERGENCY request is accepted exactly for a registered name in ON or EMERGENCY, and marks its records with eCall and nothing else |
| EmergencyRules.TestModeMarks | lifecycle/lifecyclemgr/src/C_COMMONAPI_SERVER_LifecycleAPI_IMP.cpp:894-901 | A TEST_MODE request is accepted exactly for a registered name in ON or MAINTENANCE, and marks its records with testMode and nothing else |
| EmergencyRules.OtherRequestsMarkNothing | lifecycle/lifecyclemgr/src/C_COMMONAPI_SERVER_LifecycleAPI_IMP.cpp:902-915 | A low-power request is accepted exactly for the registered legislative client in EMERGENCY_LAW, any further request never; neither changes a record |
| LegatoTranslation.TranslationInverts | lifecycle/lifecyclemgr/src/LegatoServer.cpp:45-141 | The five-value translation can be inverted on a tuple if and only if every value is a named literal; the CAN exchange is no loss |
| Manager.WholeModeEnters | lifecycle/lifecyclemgr/src/C_COMMONAPI_SERVER_LifecycleAPI_IMP.cpp:266-495 | The micro-stepped power-mode handler, run without interruption, is the straight-line handler |
| Manager.WholeModeIsRun | lifecycle/lifecyclemgr/src/C_COMMONAPI_SERVER_LifecycleAPI_IMP.cpp:434-495 | The uninterrupted handler equals the history of its own events, state and outputs, and leaves no window open |
| Manager.StepState | lifecycle/lifecyclemgr/src/C_COMMONAPI_SERVER_LifecycleAPI_IMP.cpp:455-495 | The lifecycle state has exactly three kinds of writer: mapped power modes, successful wakeups, accepted low-power requests; nothing else changes it |
| Manager.StepInfo | lifecycle/lifecyclemgr/src/commonapi_client.cpp:95-168 | Battery, CAN and thermal values are written by their own events only, the wakeup source by the two wakeup events only |
| Server.LegatoServer.CapiLcStateToLeLcState | lifecycle/lifecyclemgr/src/LegatoServer.cpp:65-97 | Returns the translated state and stores it in the cache, leaving the other four fields |
| Server.LegatoServer.CapiLcWakeupToLeWakeupSource | lifecycle/lifecyclemgr/src/LegatoServer.cpp:45-63 | Returns the translated wakeup source and stores it, leaving the other fields |
| Server.LegatoServer.CapiLcCanStatusToLeCanStatus | lifecycle/lifecyclemgr/src/LegatoServer.cpp:99-111 | Returns the exchanged CAN status and stores it, leaving the other fields |
| Server.LegatoServer.CapiLcBatteryStateToLeBatteryStatus | lifecycle/lifecyclemgr/src/LegatoServer.cpp:113-126 | Returns the translated battery status and stores it, leaving the other fields |
| Server.LegatoServer.CapiLcThermalStateToLeThermalState | lifecycle/lifecyclemgr/src/LegatoServer.cpp:128-141 | Returns the translated thermal state and stores it, leaving the other fields |
| Server.LegatoServer.ReportLcStateEventPlus | lifecycle/lifecyclemgr/src/LegatoServer.cpp:143-169 | With an event id the whole cache becomes the translation of the tuple and exactly that is reported; without one nothing happens |
| Server.LegatoServer.RegisterClient | lifecycle/lifecyclemgr/src/LegatoServer.cpp:186-200 | Registers like CommonAPI and leaves in the cached state the translation of what the registration handed back |
| Server.LegatoServer.LcStayActive | lifecycle/lifecyclemgr/src/LegatoServer.cpp:304-318 | Does what the CommonAPI request does, with the translated kind and the translated reply |
| Server.LegatoServer.LcEmergency | lifecycle/lifecyclemgr/src/LegatoServer.cpp:171-184 | The live emergency path: forwards the translated state and replies with the call's success |
| Server.LifecycleServer.constructor | lifecycle/lifecyclemgr/src/C_COMMONAPI_SERVER_LifecycleAPI_IMP.cpp:50-57 | The registry starts empty, the lock free, the mode flag set; state and information are arbitrary |
| Server.LifecycleServer.FindClient | lifecycle/lifecyclemgr/src/C_COMMONAPI_SERVER_LifecycleAPI_IMP.cpp:1033-1044 | The scan loop stops at the first record of that name |
| Server.LifecycleServer.SetPmWakeupSource | lifecycle/lifecyclemgr/src/C_COMMONAPI_SERVER_LifecycleAPI_IMP.cpp:161-200 | Writes the wakeup source the reason stands for, in the current state, and nothing else |
| Server.LifecycleServer.SetSocketWakeupSource | lifecycle/lifecyclemgr/src/C_COMMONAPI_SERVER_LifecycleAPI_IMP.cpp:202-235 | Writes the wakeup source the socket reason stands for, and nothing else |
| Server.LifecycleServer.SetNwSync | lifecycle/lifecyclemgr/src/C_COMMONAPI_SERVER_LifecycleAPI_IMP.cpp:150-159 | Writes the CAN status and announces nothing |
| Server.LifecycleServer.SetMainBattery | lifecycle/lifecyclemgr/src/C_COMMONAPI_SERVER_LifecycleAPI_IMP.cpp:238-249 | Writes the battery status and announces the whole tuple once |
| Server.LifecycleServer.SetVtmState | lifecycle/lifecyclemgr/src/C_COMMONAPI_SERVER_LifecycleAPI_IMP.cpp:252-263 | Writes the thermal state and announces the whole tuple once |
| Server.LifecycleServer.NotifyAllRegisteredClientsNadStateInfo | lifecycle/lifecyclemgr/src/C_COMMONAPI_SERVER_LifecycleAPI_IMP.cpp:527-542 | Fires the CommonAPI event and then reports to Legato, updating the cache |
| Server.LifecycleServer.SetPowerMode | lifecycle/lifecyclemgr/src/C_COMMONAPI_SERVER_LifecycleAPI_IMP.cpp:266-442 | State and ordered outputs are those of the power-mode events of the state machine; the mode flag is set again |
| Server.LifecycleServer.EvaluateAndBroadcastPowerMode | lifecycle/lifecyclemgr/src/C_COMMONAPI_SERVER_LifecycleAPI_IMP.cpp:455-495 | Enters the mapped state, announces it, and for STAY_ALIVE_SERVICES waits and sends STAY_INACTIVE in the order of the branch taken |
| Server.LifecycleServer.StartTcuOnlyTimer | lifecycle/lifecyclemgr/src/C_COMMONAPI_SERVER_LifecycleAPI_IMP.cpp:444-453 | Waits, then sends STAY_INACTIVE with unlock status 1 |
| Server.LifecycleServer.LcJumpToListen2 | lifecycle/lifecyclemgr/src/C_COMMONAPI_SERVER_LifecycleAPI_IMP.cpp:512-525 | Sends STAY_INACTIVE with the provider connection inactive and replies OK |
| Server.LifecycleServer.LcWakeup | lifecycle/lifecyclemgr/src/C_COMMONAPI_SERVER_LifecycleAPI_IMP.cpp:675-754 | Wakes only from the listening states and the low-power state; state, outputs in order, and reply |
| Server.LifecycleServer.TriggerEmergency | lifecycle/lifecyclemgr/src/C_COMMONAPI_SERVER_LifecycleAPI_IMP.cpp:766-816 | Sends the call status for four states and none for others; the reply follows the call's success |
| Server.LifecycleServer.LcUnRegisterClient | lifecycle/lifecyclemgr/src/C_COMMONAPI_SERVER_LifecycleAPI_IMP.cpp:561-648 | Removes the record found under the cleaned name; no reply at all for a blank name; the lock is free at every return |
| Server.LifecycleServer.EvaluateRegisterClient | lifecycle/lifecyclemgr/src/C_COMMONAPI_SERVER_LifecycleAPI_IMP.cpp:982-1065 | Appends a new record unless the name is known or the caller passed ALREADY_REGISTERED; state and status handed back; the lock is free at every return |
| Server.LifecycleServer.InsertUnlessKnown | lifecycle/lifecyclemgr/src/C_COMMONAPI_SERVER_LifecycleAPI_IMP.cpp:1033-1059 | The locked section of a registration: new registry and status |
| Server.LifecycleServer.LcRegisterClient | lifecycle/lifecyclemgr/src/C_COMMONAPI_SERVER_LifecycleAPI_IMP.cpp:544-559 | Registration with the CommonAPI start values |
| Server.LifecycleServer.EvaluateStayActive | lifecycle/lifecyclemgr/src/C_COMMONAPI_SERVER_LifecycleAPI_IMP.cpp:1067-1151 | The four-way decision: record, send and status, with the lock free at return |
| Server.LifecycleServer.EvaluateEmergency | lifecycle/lifecyclemgr/src/C_COMMONAPI_SERVER_LifecycleAPI_IMP.cpp:818-980 | The two passes over the registry compute the order-free rules; status, state and announcement |
| Server.LifecycleServer.VisitClients | lifecycle/lifecyclemgr/src/C_COMMONAPI_SERVER_LifecycleAPI_IMP.cpp:825-916 | The first pass settles every record, take-over aside, and knows whether the request was accepted |
| Server.LifecycleServer.VisitClient | lifecycle/lifecyclemgr/src/C_COMMONAPI_SERVER_LifecycleAPI_IMP.cpp:827-915 | The guarded branches of the loop body, for one record |
| Server.LifecycleServer.ClearECalls | lifecycle/lifecyclemgr/src/C_COMMONAPI_SERVER_LifecycleAPI_IMP.cpp:918-931 | The second pass clears eCall on every record |
| Server.CommonApiClient.OnPowerModeStatusChanged | lifecycle/lifecyclemgr/src/commonapi_client.cpp:62-78 | Forwards a power mode if the server is there |
| Server.CommonApiClient.OnSocWakeupReason | lifecycle/lifecyclemgr/src/commonapi_client.cpp:81-92 | Forwards a wakeup reason if the server is there |
| Server.CommonApiClient.OnBatteryStatusChanged | lifecycle/lifecyclemgr/src/commonapi_client.cpp:95-143 | Thermal status 0 means over-temperature, main-battery status 0 and any backup-battery event mean battery not OK; an unnamed kind passes its unset flag on |
| Server.CommonApiClient.OnNtwSyncChanged | lifecycle/lifecyclemgr/src/commonapi_client.cpp:153-168 | Only NTW_NOT_OK switches CAN off; the server is not looked at first |
| RegistryHistory.NextNames | lifecycle/lifecyclemgr/src/C_COMMONAPI_SERVER_LifecycleAPI_IMP.cpp:609-641 | One event adds exactly the name it registers and removes exactly the name it unregisters; names stay distinct, non-empty and trimmed |
| RegistryHistory.NextRecord | lifecycle/lifecyclemgr/src/C_COMMONAPI_SERVER_LifecycleAPI_IMP.cpp:1020-1059 | Every record after an event was there before, with its state and its stay-active value or the one just granted, or was created by it |
| RegistryHistory.RunNames | lifecycle/lifecyclemgr/src/C_COMMONAPI_SERVER_LifecycleAPI_IMP.cpp:1020-1059 | In every reachable registry the names are distinct, non-empty and trimmed |
| RegistryHistory.Presence | lifecycle/lifecyclemgr/src/C_COMMONAPI_SERVER_LifecycleAPI_IMP.cpp:609-1059 | After any history a name is present if and only if the latest effective registration or unregistration of it was a registration |
| RegistryHistory.RegisterReply | lifecycle/lifecyclemgr/src/C_COMMONAPI_SERVER_LifecycleAPI_IMP.cpp:1014-1059 | After any history a registration is answered OK if and only if the latest registration or unregistration of the name was no registration, and then adds one record with the state of now, released and without flags; otherwise ALREADY_REGISTERED and no change; under a blank name the caller's status comes back |
| RegistryHistory.UnregisterReplies | lifecycle/lifecyclemgr/src/C_COMMONAPI_SERVER_LifecycleAPI_IMP.cpp:596-645 | After any history an unregistration is answered OK if and only if the latest registration or unregistration of the name was a registration, and then removes one record; otherwise NOT_OK; under a blank name no reply |
| RegistryHistory.LegatoRegisterReply | lifecycle/lifecyclemgr/src/LegatoServer.cpp:186-200 | The reply of a registration as a Legato client sees it |
| RegistryHistory.RecordsAreExplained | lifecycle/lifecyclemgr/src/C_COMMONAPI_SERVER_LifecycleAPI_IMP.cpp:1020-1136 | Every record was inserted by an event of the history while absent, holds the state of that moment, was not removed since, and shows the kind of the client's last request since that met the condition on kind, state, CAN and battery, or LC_RELEASE |
| RegistryHistory.FlagsNeverSet | lifecycle/lifecyclemgr/src/C_COMMONAPI_SERVER_LifecycleAPI_IMP.cpp:760 | Without `evaluateLC_Emergency`, which nothing calls, no record ever carries an emergency flag |
| RegistryHistory.UntrimmedStayActiveIsRefused | lifecycle/lifecyclemgr/src/C_COMMONAPI_SERVER_LifecycleAPI_IMP.cpp:1074-1091 | In every reachable registry a stay-active request under an untrimmed name is refused, changes nothing and sends nothing |
| RegistryHistory.StayActiveOutcome | lifecycle/lifecyclemgr/src/C_COMMONAPI_SERVER_LifecycleAPI_IMP.cpp:1087-1136 | A stay-active request is answered OK if and only if the name is registered and the kind is a release, or a lock in a stay-alive state, or a backup-battery request there with CAN off and the main battery not OK; then the record found shows the kind and nothing else changes, otherwise nothing changes |
| RegistryHistory.ReleaseIsGranted | lifecycle/lifecyclemgr/src/C_COMMONAPI_SERVER_LifecycleAPI_IMP.cpp:1106-1115 | In every state a registered client can release and its record then shows it; an unnamed kind is refused and changes nothing |
| RegistryHistory.LegatoStayActiveOutcome | lifecycle/lifecyclemgr/src/LegatoServer.cpp:304-329 | Over Legato a lock and a backup-battery request mean the same as over CommonAPI and every other kind a release; the reply follows |
| Reachability.EmergencyStateChange | lifecycle/lifecyclemgr/src/C_COMMONAPI_SERVER_LifecycleAPI_IMP.cpp:902-942 | The exact condition under which an emergency request changes the state, for every status handed in |
| Reachability.StateBetweenModes | lifecycle/lifecyclemgr/src/C_COMMONAPI_SERVER_LifecycleAPI_IMP.cpp:679-703 | Without power-mode events any history keeps the state, except listening to STAY_ALIVE_SERVICES once and the two legislative states alternating; STAY_ALIVE_SERVICES is stable |
| Reachability.EveryChangeHappens | lifecycle/lifecyclemgr/src/C_COMMONAPI_SERVER_LifecycleAPI_IMP.cpp:679-703 | Each permitted change is reached by some history without power-mode events |
| Reachability.ReachableBetweenModes | lifecycle/lifecyclemgr/src/C_COMMONAPI_SERVER_LifecycleAPI_IMP.cpp:455-942 | Without power-mode events a state can be reached if and only if it is permitted |
| Reachability.LowPowerRoundTrip | lifecycle/lifecyclemgr/src/C_COMMONAPI_SERVER_LifecycleAPI_IMP.cpp:902-942 | From EMERGENCY_LAW, an accepted low-power request followed by a wakeup, which is answered OK, restores the state, the registry and the information, with exactly the two announcements as outputs |
| Reachability.SecondWakeupFails | lifecycle/lifecyclemgr/src/C_COMMONAPI_SERVER_LifecycleAPI_IMP.cpp:679-753 | From a listening state or EMERGENCY_LAW_LP a wakeup succeeds, and a second one right after it is refused and does nothing |
| ChannelHistories.WakeupReply | lifecycle/lifecyclemgr/src/C_COMMONAPI_SERVER_LifecycleAPI_IMP.cpp:677-753 | A wakeup is answered OK if and only if the state is LISTEN_1, LISTEN_2, LISTEN_3 or EMERGENCY_LAW_LP, if and only if it changes the state, if and only if it announces; from a listening state it sends STAY_ACTIVE before; otherwise it does nothing |
| Broadcasts.StepChannels | lifecycle/lifecyclemgr/src/C_COMMONAPI_SERVER_LifecycleAPI_IMP.cpp:527-542 | Each event broadcasts at most once, the same tuple on both channels |
| Broadcasts.ChannelsAgree | lifecycle/lifecyclemgr/src/LegatoServer.cpp:143-169 | Once the event id exists the Legato trace of any history is the translation of the CommonAPI trace, entry by entry |
| Broadcasts.ChannelsAgreeFromStart | lifecycle/lifecyclemgr/src/LegatoServer.cpp:24-27 | From start-up, the Legato trace is the translation of exactly the notifications made after the event id was created |
| ChannelHistories.NotificationsByEvents | lifecycle/lifecyclemgr/src/C_COMMONAPI_SERVER_LifecycleAPI_IMP.cpp:266-542 | Over any history the CommonAPI trace has, in order, one entry for each announcing event and no other; the entry has the state the event brings and the values it leaves |
| ChannelHistories.ReportsSaySame | lifecycle/lifecyclemgr/src/LegatoServer.cpp:45-168 | Once the event id exists there is one report for each notification, and it names the same state, wakeup source, battery and thermal value, and the opposite CAN status |
| ChannelHistories.ReportsFollowNotifications | lifecycle/lifecyclemgr/src/C_COMMONAPI_SERVER_LifecycleAPI_IMP.cpp:527-542 | In the order of all outputs of any history each report comes right after its notification, and once the event id exists each notification is followed by its report |
| ChannelHistories.CallStatusesByEvents | lifecycle/lifecyclemgr/src/C_COMMONAPI_SERVER_LifecycleAPI_IMP.cpp:766-817 | Over any history the microcontroller is told, in order, of exactly the emergency calls for EMERGENCY, EMERGENCY_LAW, EMERGENCY_LAW_LP and ON, each unchanged, and no other event tells it of a call |
| ChannelHistories.LegatoCallStatus | lifecycle/lifecyclemgr/src/LegatoServer.cpp:170-183 | An emergency call over Legato is told to the microcontroller under the same name |
| Broadcasts.CommonApiTraceRecoverable | lifecycle/lifecyclemgr/src/LegatoServer.cpp:45-168 | The CommonAPI trace can be rebuilt from the Legato trace if and only if every tuple in it is named, which always holds from a named state |
| Broadcasts.CacheCoherence | lifecycle/lifecyclemgr/src/LegatoServer.cpp:156-160 | At every point after a first report the cached battery and thermal values are those of the manager, wakeup source and CAN those of the last notification; the cached state, outside the 2 s sleep, is the manager's if and only if the last event to write it was not a blank Legato registration with a default that translates otherwise |
| Broadcasts.LegatoRegistrationCoherence | lifecycle/lifecyclemgr/src/LegatoServer.cpp:190-197 | A Legato registration keeps the cached state true if and only if the name is not blank or the default translates alike; it touches no other field |
| Broadcasts.BlankRegistrationBreaksCache | lifecycle/lifecyclemgr/src/LegatoServer.cpp:190-196 | A concrete blank registration that leaves a wrong state in the cache |
| Broadcasts.LowPowerRoundTripChannels | lifecycle/lifecyclemgr/src/C_COMMONAPI_SERVER_LifecycleAPI_IMP.cpp:686-703 | The low-power round trip emits exactly two notifications, no TCU send and no wait |
| Provenance.BatteryIsLastSet | lifecycle/lifecyclemgr/src/C_COMMONAPI_SERVER_LifecycleAPI_IMP.cpp:238-249 | The battery status is NOK if and only if the last battery event was a main-battery status 0 or of the backup battery |
| Provenance.ThermalIsLastSet | lifecycle/lifecyclemgr/src/C_COMMONAPI_SERVER_LifecycleAPI_IMP.cpp:252-263 | The thermal state is over-temperature if and only if the last thermal event had status 0 |
| Provenance.CanIsLastSet | lifecycle/lifecyclemgr/src/C_COMMONAPI_SERVER_LifecycleAPI_IMP.cpp:150-159 | CAN is off if and only if the last network event was NTW_NOT_OK |
| Provenance.WakeupIsLastSet | lifecycle/lifecyclemgr/src/C_COMMONAPI_SERVER_LifecycleAPI_IMP.cpp:162-235 | After any history the wakeup source is the one the last reporting event stands for, by the reason numbers of the power manager and the modem socket; a clock wakeup by the state it came in |
| Provenance.StateIsLastSet | lifecycle/lifecyclemgr/inc/C_COMMONAPI_SERVER_LifecycleAPI_IMP.h:56-82 | After any history the manager is in a state if and only if the last event to write the state brought it: a power mode numbered for that state (On by 6 or 25, Off by 0, Listen1 by 15, ...), a wakeup, or an accepted low-power request |
| Provenance.StateNeverSet | lifecycle/lifecyclemgr/src/C_COMMONAPI_SERVER_LifecycleAPI_IMP.cpp:266-428 | If no event of a history writes the state, it is the one the history began in |
| Provenance.UnmappedModeDoesNothing | lifecycle/lifecyclemgr/src/C_COMMONAPI_SERVER_LifecycleAPI_IMP.cpp:418-428 | A power mode other than 0 to 19 and 22 to 25 changes nothing and outputs nothing |
| Provenance.BubProvenance | lifecycle/lifecyclemgr/src/C_COMMONAPI_SERVER_LifecycleAPI_IMP.cpp:1116-1127 | LC_BUB is granted if and only if the client is registered, the last battery event reported a lost battery, the last network event a lost network, and the last state-setting event was TCU_ONLY, TIMED or a wakeup from a listening state |
| PendingActions.StayActiveSends | lifecycle/lifecyclemgr/src/C_COMMONAPI_SERVER_LifecycleAPI_IMP.cpp:1087-1136 | A stay-active request sends exactly once if the client is registered, and never otherwise; only a granted lock asks to stay active |
| PendingActions.StepSends | lifecycle/lifecyclemgr/src/C_COMMONAPI_SERVER_LifecycleAPI_IMP.cpp:291-304 | Every event sends at most once, exactly in the listed cases, with unlock status 1 |
| PendingActions.SendsAreSendingEvents | lifecycle/lifecyclemgr/src/C_COMMONAPI_SERVER_LifecycleAPI_IMP.cpp:444-521 | Over any history the trace of sends has one entry per sending event, in order, each with unlock status 1 |
| PendingActions.LastPending | lifecycle/lifecyclemgr/src/C_COMMONAPI_SERVER_LifecycleAPI_IMP.cpp:697-1136 | The last pending action is STAY_ACTIVE if and only if the last sending event was a granted lock, a wakeup from a listening state, or a STAY_ALIVE_SERVICES mode from another state |
| PendingActions.PendingMatchesLocks | lifecycle/lifecyclemgr/src/C_COMMONAPI_SERVER_LifecycleAPI_IMP.cpp:1094-1136 | A sending event tells the TCU to stay active just when some client then holds a lock, if and only if: it grants a lock; or it grants another kind and no other client holds a lock; or it is a refused request, the timer or the jump and nobody holds one; or it is a wakeup or a STAY_ALIVE_SERVICES mode and somebody does |
| PendingActions.LocksSinceLastSend | lifecycle/lifecyclemgr/src/C_COMMONAPI_SERVER_LifecycleAPI_IMP.cpp:609-1136 | Over any history the locks held are those held right after the last sending event, except of clients unregistered since |
| PendingActions.LastPendingMatchesLocks | lifecycle/lifecyclemgr/src/C_COMMONAPI_SERVER_LifecycleAPI_IMP.cpp:444-1136 | Over any history the last pending action agrees with the locks now held if and only if the last sending event activates just when some client that held a lock right after it has not been unregistered since |
| PendingActions.WakeupNeedsNoLock | lifecycle/lifecyclemgr/src/C_COMMONAPI_SERVER_LifecycleAPI_IMP.cpp:695-701 | A wakeup from a listening state sends STAY_ACTIVE although nobody holds a lock |
| PendingActions.ReleaseOverridesOtherLocks | lifecycle/lifecyclemgr/src/C_COMMONAPI_SERVER_LifecycleAPI_IMP.cpp:1094-1115 | One client's release sends STAY_INACTIVE although another still holds its lock |
| StayAliveWindow.SleepIsStable | lifecycle/lifecyclemgr/src/C_COMMONAPI_SERVER_LifecycleAPI_IMP.cpp:459-488 | During a sleep of the mode thread every interleaving of other handlers keeps STAY_ALIVE_SERVICES and the window |
| StayAliveWindow.HistoryIsBehavior | lifecycle/lifecyclemgr/src/C_COMMONAPI_SERVER_LifecycleAPI_IMP.cpp:266-495 | Every legal history is a behaviour in the sense of the window theorems |
| StayAliveWindow.WindowProtocol | lifecycle/lifecyclemgr/src/C_COMMONAPI_SERVER_LifecycleAPI_IMP.cpp:444-488 | What the mode thread outputs from a TCU_ONLY event to its timer is exactly, under every interleaving: from a listening state or shutdown one announcement of STAY_ALIVE_SERVICES, 200 s, one send of STAY_INACTIVE; otherwise 2 s, the announcement, 120 s or 21 s by the wakeup source at the end of the 2 s, the send; with no other mode event between |
| StayAliveWindow.WindowStaysOpen | lifecycle/lifecyclemgr/src/C_COMMONAPI_SERVER_LifecycleAPI_IMP.cpp:459-488 | Until its timer elapses a window stays open and no further mode event is handled |
| StayAliveWindow.TimersMatchTcuOnly | lifecycle/lifecyclemgr/src/C_COMMONAPI_SERVER_LifecycleAPI_IMP.cpp:434-453 | Elapsed timers and TCU_ONLY events are equal in number, one fewer while a window is open |
| StayAliveWindow.OtherModesDoNotWait | lifecycle/lifecyclemgr/src/C_COMMONAPI_SERVER_LifecycleAPI_IMP.cpp:434-493 | No power mode but TCU_ONLY waits or leaves a window open |
| LegatoMirror.InvKept | lifecycle/lifecyclemgr/src/LegatoServer.cpp:143-169 | Every field write, queueing, taking, field read and hand-over keeps the invariant of the mirror |
| LegatoMirror.DeliveriesAreRecent | lifecycle/lifecyclemgr/src/LegatoServer.cpp:277-290 | Under every interleaving delivery i carries only field values of reports numbered i or later, and per field these never go back |
| LegatoMirror.Convergence | lifecycle/lifecyclemgr/src/LegatoServer.cpp:143-290 | At rest there are as many deliveries as reports, and the last tuple delivered and the cache are the translation of the last broadcast |
| LegatoMirror.WholeIffOneReport | lifecycle/lifecyclemgr/src/LegatoServer.cpp:143-290 | A delivery hands over a broadcast tuple in every run with the same interleaving, whatever is broadcast, if and only if its five reads come from one report |
| LegatoMirror.OneReportIsWhole | lifecycle/lifecyclemgr/src/LegatoServer.cpp:277-290 | A delivery read from one report hands over that report's tuple |
| LegatoMirror.TwoReportsTear | lifecycle/lifecyclemgr/src/LegatoServer.cpp:277-290 | For a delivery read from two reports there are broadcasts for which the same interleaving hands over a tuple that was never broadcast |
| LegatoMirror.QuietDeliveryIsWhole | lifecycle/lifecyclemgr/src/LegatoServer.cpp:156-160 | If an event is taken while no report is half written and no field is written until the hand-over, the handler is given the tuple of the last report written |
| LegatoMirror.TornDeliveryHappens | lifecycle/lifecyclemgr/src/LegatoServer.cpp:284-289 | A concrete interleaving in which a handler is given a tuple that was never broadcast |
| RegistryLock.InvKept | lifecycle/lifecyclemgr/src/C_COMMONAPI_SERVER_LifecycleAPI_IMP.cpp:604-645 | Every step of every call, and every change of the state, keeps the invariant of the concurrent registry |
| RegistryLock.LockSafety | lifecycle/lifecyclemgr/src/C_COMMONAPI_SERVER_LifecycleAPI_IMP.cpp:604-672 | Under every interleaving at most one call is inside a section, no call about to acquire the lock holds it, and no finished call holds it |
| RegistryLock.Linearisable | lifecycle/lifecyclemgr/src/C_COMMONAPI_SERVER_LifecycleAPI_IMP.cpp:1020-1150 | Under every interleaving the registry is the result of the locked sections carried out one by one in the order the lock was acquired; each section is its call's, each call that is past its section and does not skip the registry has exactly one, and its reply is the one its operation gives in that order |
| RegistryLock.StayActiveSections | lifecycle/lifecyclemgr/src/C_COMMONAPI_SERVER_LifecycleAPI_IMP.cpp:1074-1150 | Under every interleaving a release by a registered client is granted and shows, an unnamed kind is refused, and a lock or backup-battery request goes as the unguarded reads decided |
| RegistryLock.CarryRecord | lifecycle/lifecyclemgr/src/C_COMMONAPI_SERVER_LifecycleAPI_IMP.cpp:609-1136 | After one section every record was there before with the same state, or the section registered it while its name was absent |
| RegistryLock.RecordedStateWasCurrent | lifecycle/lifecyclemgr/src/C_COMMONAPI_SERVER_LifecycleAPI_IMP.cpp:1020-1061 | Every record was inserted by a registration that found the name absent and was not unregistered since; the state in it was the lifecycle state at some moment between the start of that call and the insertion |
| RegistryLock.HolderReleases | lifecycle/lifecyclemgr/src/C_COMMONAPI_SERVER_LifecycleAPI_IMP.cpp:1026-1063 | The holder can always go on, each own step brings the release closer, and no other step sets it back |
| Controller.PrefixesExclude | lifecycle/lifecyclemgr/src/C_CONTROLLER_IMP.cpp:257-281 | No buffer starts with two of the ten prefixes |
| Controller.TestOrderIrrelevant | lifecycle/lifecyclemgr/src/C_CONTROLLER_IMP.cpp:257-286 | Any two orders of the ten tests classify every buffer alike |
| Controller.ClassMeans | lifecycle/lifecyclemgr/src/C_CONTROLLER_IMP.cpp:257-286 | A message has a class if and only if it starts with a text of it: sms, tcp, rtc, gp98, or one of the six modem texts |
| Controller.StrncmpIsPrefix | lifecycle/lifecyclemgr/src/C_CONTROLLER_IMP.cpp:257-262 | Each bounded comparison, NUL rule included, is a prefix test |
| Controller.Classify | lifecycle/lifecyclemgr/src/C_CONTROLLER_IMP.cpp:257-286 | The chain of tests yields the class of the buffer, and leaves the reason as it was if there is none |
| Controller.Receive | lifecycle/lifecyclemgr/src/C_CONTROLLER_IMP.cpp:254-255 | The buffer is cleared and then holds the message, cut or padded |
| Controller.QlLpmHandler | lifecycle/lifecyclemgr/src/C_CONTROLLER_IMP.cpp:110-190 | Sets the wakeup source, waits, and sends the event of the reason if the proxy is available |
| Controller.ReceiveOne | lifecycle/lifecyclemgr/src/C_CONTROLLER_IMP.cpp:252-293 | One pass of the loop |
| Controller.QlRecvfromKernel | lifecycle/lifecyclemgr/src/C_CONTROLLER_IMP.cpp:252-293 | On any stream every message is handled with the class of the latest recognised one; manager state and outputs follow from the handled reasons |
| Controller.InitialForgotten | lifecycle/lifecyclemgr/src/C_CONTROLLER_IMP.cpp:201-293 | From the first recognised message on the uninitialised reason has no influence |
| Controller.EventsMatchMessages | lifecycle/lifecyclemgr/src/C_CONTROLLER_IMP.cpp:135-180 | The wakeup events sent are one to one, and in order, those of the messages handled as SMS, spurious or MQTT while the proxy was available |
| Controller.MessageOutputs | lifecycle/lifecyclemgr/src/C_CONTROLLER_IMP.cpp:135-180 | Every message waits 4 s and, with the proxy available, sends SMS, MQTT or spurious if the latest message that starts with one of the ten texts starts with sms, tcp or a modem text; rtc and gp98 send nothing |
| Controller.MessageWakes | lifecycle/lifecyclemgr/src/C_CONTROLLER_IMP.cpp:110-113 | The wakeup source after every message of a stream, by the same texts |
| Controller.EventsFollowTexts | lifecycle/lifecyclemgr/src/C_CONTROLLER_IMP.cpp:252-293 | Over any stream the wakeup events sent come in order from exactly the messages during which the proxy was available and the latest known text is a reported one, and each is the event of that text |

## Left out

- Sockets, threads, proxies, D-Bus and the Legato event runtime: messages arrive as a stream, sends are log entries, Legato delivery is a FIFO.
- `run_Modem`, `setAndroidState` and the fields only they read (`m_modemState`, `bBuBMode`): every call is commented out.
- `LC_SetRTC` and `LC_GetPowerState_plus`: they read or forward values and change nothing here.
- Logging, and the text that `PrintRegisteredClients` writes; its locked section is kept.
- The wake lock and the mutex of `ql_lpm_handler`: each time the proxy becomes available the source starts another netlink thread; one such thread is modelled.
- Data races within one handler: in the state machine a handler between two sleeps is one step. The registry and the Legato cache, where finer steps matter, have models of their own.
- RegistryLock.Linearisable: does not cover `evaluateLC_Emergency`, which walks the registry without the lock and is never called.
- LegatoMirror.Convergence: does not cover the cache write of a Legato registration running at the same time as a report; its effect between reports is in `Broadcasts.LegatoRegistrationCoherence`.
- LegatoMirror.DeliveriesAreRecent: models one handler; several handlers have a queue each.
- StayAliveWindow.WindowProtocol: excludes emergency requests that are handed an OK status, which no caller in the source does with a known value.
- Controller.QlRecvfromKernel: runs on a finite stream; the loop of the source never ends.
- `C_LEGATO_PROXY_le_appCtrl.cpp`, `C_APP_IMP.cpp`, `lifecycle_init.cpp` and the build files.
