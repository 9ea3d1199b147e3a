# Verified model of the Ring bridge

A Dafny model of the parts of the bridge that run for as long as the process does, under failure, interleaving and
clock movement. `dafny verify dfyconfig.toml` checks all of it.

Sockets, vendor replies, system-call results, directory order and the passage of time are free: they are parameters,
scripts of outcomes, or nondeterministic choices, so a contract holds for every way they can turn out. A section that
the bridge runs under one lock is one step; steps of different tasks interleave in any order. Objects that the bridge
updates in place are classes whose methods are proved against functions on values; the theorems are about those
functions over whole runs.

| file | part of the bridge |
|---|---|
| `Watchdog.dfy`, `WatchdogRuns.dfy` | push-silence watchdog, and its whole runs next to the full push log |
| `PushEvents.dfy`, `LongPoll.dfy` | event queue of an Intercom, and consumers polling it concurrently with publishers |
| `UnlockHistory.dfy` | unlock history cursor over vendor pages |
| `RequestTrace.dfy`, `RingClients.dfy` | account client: rotating refresh token, session record, push token, retries |
| `Lifecycle.dfy` | reader/writer lock between clients, discovery and enrollment |
| `PushRotation.dfy`, `Reconnect.dfy` | make-before-break push registration, reconnect and rotation policy |
| `SessionGates.dfy`, `Sessions.dfy` | session gate, and starts, workers, relays and deletes around it |
| `Decimals.dfy`, `Routes.dfy` | device pins and the route table across repeated discovery |
| `Signaling.dfy`, `Negotiations.dfy` | stage machine of a relay call, negotiation of a direct call |
| `Retention.dfy`, `Migration.dfy` | recording archive: eviction, and moving it to another directory |

## Model

| member | source | states |
|---|---|---|
| `Watchdog.DingWatchdog.RecordPush` | src/ring_ding_watchdog.rs:74-82 | The queue becomes the newest 256 pushes and the running maximum the newest ever |
| `Watchdog.DingWatchdog.Observe` | src/ring_ding_watchdog.rs:84-122 | Whatever order the history map is visited in, the result is the number of unjudged dings that rang two minutes ago, or were read fifteen seconds ago while push is unproven, and have no queued push within 90 seconds before or after |
| `Watchdog.DingWatchdog.JudgeDue` | src/ring_ding_watchdog.rs:98-116 | The loop marks exactly the due dings, counts exactly those without a push, and moves the last miss to the newest of them, for every visiting order |
| `Watchdog.DingWatchdog.AnyWithin` | src/ring_ding_watchdog.rs:108-112 | Finds whether some push is within 90 seconds before or after the ding |
| `Watchdog.DingWatchdog.RememberPage` | src/ring_ding_watchdog.rs:89-95 | Takes over the dings of a page that are at most an hour old and not known yet, while fewer than 256 are remembered |
| `Watchdog.DingWatchdog.CurrentHealth` | src/ring_ding_watchdog.rs:131-143 | Health is the function whose meaning for the full log is `HealthSpeaksForTheFullLog` |
| `WatchdogRuns.DueIsRecent` | src/ring_ding_watchdog.rs:84-120 | A ding still to be judged is at least 90 seconds newer than every push that can have been pruned, though the clock may have stepped back |
| `WatchdogRuns.RunKeeps` | src/ring_ding_watchdog.rs:74-120 | Over every run whose clock never falls more than 3510 seconds behind: each push is queued, evicted or older than the retention, and unjudged dings are recent |
| `WatchdogRuns.RunKeepsAlways` | src/ring_ding_watchdog.rs:74-143 | Over every run, whatever the clock does: both running maxima are those of the full record, and every ding was at most an hour old when first read |
| `WatchdogRuns.RunCounts` | src/ring_ding_watchdog.rs:84-120 | Over every run whose clock steps back by at most 3600 seconds, a counted id is remembered as judged or too old ever to be remembered again |
| `WatchdogRuns.PruningNeverChangesAVerdict` | src/ring_ding_watchdog.rs:74-120 | A due ding has a push within 90 seconds in the pruned queue (or among those lost to the 256 limit) exactly when it has one in the log of all pushes ever |
| `WatchdogRuns.BoundedRefinesUnbounded` | src/ring_ding_watchdog.rs:74-120 | While nothing fell out of the 256-entry queue, the watchdog has the same history, counts and last miss as one written in plain arithmetic that never forgets a push |
| `WatchdogRuns.EachMissCountedOnce` | src/ring_ding_watchdog.rs:84-120 | Over every such run no ding is counted twice, and the returned counts add up to the number of distinct dings missed |
| `WatchdogRuns.CountingIsExact` | src/ring_ding_watchdog.rs:84-120 | All runs whose clock steps back by at most `d` count each ding at most once, if and only if `d` is at most 3600 seconds |
| `WatchdogRuns.CountedTwiceBeyond` | src/ring_ding_watchdog.rs:84-120 | For every larger `d` a run that counts a ding, forgets it while the clock is ahead, reads it again and counts it again |
| `WatchdogRuns.HealthSpeaksForTheFullLog` | src/ring_ding_watchdog.rs:124-143 | Over every run, whatever the clock does: degraded exactly while some miss of the last day is newer than every push ding ever received |
| `WatchdogRuns.NoDingForgottenUnjudged` | src/ring_ding_watchdog.rs:98-120 | Over every run, whatever the clock does: a ding is judged exactly when two minutes have passed since it rang, or fifteen seconds since it was read while push is unproven; it is forgotten exactly two hours after it rang, and never unjudged |
| `WatchdogRuns.ToleranceIsExact` | src/ring_ding_watchdog.rs:74-120 | All runs whose clock steps back by at most `d` judge every ding as the full push log would, if and only if `d` is at most 3510 seconds |
| `WatchdogRuns.LostAtTheBound` | src/ring_ding_watchdog.rs:84-120 | For every larger `d` a run in which a ding whose push is in the full log is counted as missed |
| `PushEvents.RingPushEvents.PublishDetailed` | src/ring_push_event.rs:88-121 | The queue stays the view of the last 128 entries of the log; a dropped repeat changes nothing; a ding reaches the watchdog exactly when published |
| `PushEvents.RingPushEvents.LatestSequence` | src/ring_push_event.rs:152-154 | The newest sequence is the length of the log, until the counter saturates |
| `PushEvents.RingPushEvents.EventsAfter` | src/ring_push_event.rs:160-169 | A read is the filter of the retained view, described by `ReadIsTheTail` |
| `PushEvents.DroppedExactlyWhenRecent` | src/ring_push_event.rs:88-103 | A report is dropped exactly when an unlock within 15 seconds is among the last 128 published events |
| `PushEvents.SameUnlockPublishedFarApart` | src/ring_push_event.rs:88-121 | For every sequence of reports, two published unlocks within 15 seconds are at least 129 publications apart |
| `PushEvents.RetainedUnlocksAreApart` | src/ring_push_event.rs:88-121 | No two retained unlocks are within 15 seconds; the 129 holds for sequence numbers |
| `PushEvents.SequencesIncreaseUntilSaturation` | src/ring_push_event.rs:107-117 | Sequence numbers strictly increase exactly while the log has at most 2^64-1 entries |
| `PushEvents.ReadIsTheTail` | src/ring_push_event.rs:160-169 | A reader gets, in order, everything published after its cursor that is still among the newest 128 |
| `LongPoll.StepKeeps` | src/ring_push_api.rs:53-74 | Every publisher and handler step keeps cursor, wakeup and delivery invariants of every consumer |
| `LongPoll.RunKeeps` | src/ring_push_event.rs:107-130 | The invariants hold in every reachable state |
| `LongPoll.ResumingConsumerMissesOnlyOverwritten` | src/ring_push_api.rs:53-74 | For every interleaving a resuming consumer sees no reset, receives strictly increasing genuine events, and misses one exactly when the read that passed it found the newest at least 128 ahead |
| `LongPoll.NoLostWakeup` | src/ring_push_event.rs:115-130 | A consumer parked with an event beyond its cursor can wake or a publisher still owes a notification, also when notifications arrive out of order |
| `LongPoll.EveryCursorIsServed` | src/ring_push_api.rs:53-74 | Whatever is published between the handler's two looks and before the next poll: the generation of another process is reset whatever the position, this one or none exactly if the position lies beyond the newest; a reset delivers the newest 128 events under their numbers, a good position those beyond it, none nothing; the returned position is the newest and is never reset later |
| `LongPoll.ParksExactly` | src/ring_push_event.rs:123-131 | A poll skips its second look exactly if the channel shows a newer sequence, and parks exactly if it may wait and nothing lies beyond its cursor |
| `LongPoll.NoPollIsStuck` | src/ring_push_api.rs:53-74 | A poll can always take its next step, and one that is parked can always time out, and wake exactly if the channel was notified since it looked; its read then delivers the retained events beyond its cursor |
| `UnlockHistory.UnlockCursor.Advance` | src/ring_unlock_watch.rs:52-67 | The report is the fresh unlocks in page order, the floor rises to the newest time less 120 seconds, and only this page is remembered |
| `UnlockHistory.FloorIsHighest` | src/ring_unlock_watch.rs:52-67 | After any pages the floor is the maximum of the start and every time seen less 120 seconds |
| `UnlockHistory.ReportedExactlyAtFirstAppearance` | src/ring_unlock_watch.rs:52-67 | An unlock is reported by a poll exactly when this is its first page and its time reaches the start and every earlier time less 120 seconds |
| `UnlockHistory.ReportedAtMostOnce` | src/ring_unlock_watch.rs:52-67 | No id is reported twice in a run, neither by two polls nor by one |
| `UnlockHistory.WindowsNeverReturn` | src/ring_unlock_watch.rs:149-178 | An id that left the newest-20 window of a growing history never returns, so the premise of the two rows above holds |
| `UnlockHistory.GrowingHistoryReportsOnce` | src/ring_unlock_watch.rs:52-67 | Over any run on a growing history whose pages list an item once, no two reports are of the same unlock |
| `UnlockHistory.UnlockWatch.PollUnlocks` | src/ring_unlock_watch.rs:93-147 | One poll advances each cursor by the pages read and publishes their reports; failed reads change nothing |
| `UnlockHistory.OnePollIsIndependent` | src/ring_unlock_watch.rs:119-147 | Within one poll, at its floor, a device's cursor and publications depend on its own pages alone |
| `UnlockHistory.IntercomsAreIndependent` | src/ring_unlock_watch.rs:93-147 | Over any sequence of polls: all published for a device and its cursor are what they would be without the others if no other was read before its own first page, or the start lies exactly one polling interval before that; otherwise its cursor never is |
| `UnlockHistory.LateIntercomDiffers` | src/ring_unlock_watch.rs:111-118 | Wherever that condition fails, an unlock at the lower of the two floors is published with the others or without them, but not both |
| `UnlockHistory.LateIntercomLosesAnUnlock` | src/ring_unlock_watch.rs:111-118 | For instance start 0, polls at 20 and 40: an unlock of time 5 on an Intercom first read at 40 is published only if the other one was not read at 20 |
| `RequestTrace.MonitorIsFaithful` | src/ring_oauth_refresh.rs:23-87 | The monitor's two tokens are the last accepted and the last written of the trace |
| `RequestTrace.RequestsOnlyWhenDurable` | src/ring_oauth_refresh.rs:23-87 | At every point where a request leaves, the token last written is the newest accepted; a refresh presents exactly that one |
| `RequestTrace.FailedPersistBlocks` | src/ring_oauth_refresh.rs:23-87 | Between a failed write and the next request lies a successful write |
| `RequestTrace.RejectedTokenRests` | src/ring_oauth_refresh.rs:38-66 | After an answer 401, or 400 with `invalid_grant`, no refresh token is presented for 900 seconds |
| `RequestTrace.TwoAttempts` | src/ring_control_provider.rs:171-195 | Two attempts of which the first was refused amount to at most two requests, the first of them itself answered with a 401 |
| `RequestTrace.TwiceExactlyAfter401` | src/ring_control_provider.rs:171-195 | When the last request was not refused, two were sent if and only if one was answered with a 401 |
| `RingClients.RingClient.constructor` | src/ring_client.rs:73-102 | A client starts with the loaded token on disk and in memory and an empty safe trace |
| `RingClients.RingClient.Persist` | src/ring_oauth_refresh.rs:24-44 | A write replaces the file, or reports a failure that leaves either token |
| `RingClients.RingClient.EnsureAuthenticated` | src/ring_oauth_refresh.rs:23-68 | Success means the newest token is on disk and an access token is held; one good for more than a minute causes no traffic, any other is renewed; a resting token is not presented; a refresh ends as its answer says; it sends no API request and never reports 401 |
| `RingClients.RingClient.Refresh` | src/ring_oauth_refresh.rs:45-68 | The answer decides: 401, or 400 with `invalid_grant`, asks for a new enrollment and starts a rest of 900 seconds; any other status is returned and starts none; only a valid grant is taken over, and it ends the rest |
| `RingClients.CheckedMeans` | src/ring_http.rs:7-17 | A request succeeds exactly with a 2xx answer whose body can be read; any other status is returned as such |
| `RingClients.RingClient.AcceptOauth` | src/ring_oauth_refresh.rs:70-87 | The rotated token is taken over and written before success, the access token is good for the time granted; a failed write leaves the client blocked |
| `RingClients.RingClient.EnsureRegistered` | src/ring_client.rs:132-160 | A live registration causes no traffic; success otherwise means one was sent and holds for twelve hours; whatever the outcome, Ring's push record is kept unless restoring it failed or the registration failed after Ring had carried it out |
| `RingClients.RingClient.InvalidateAuth` | src/ring_client.rs:183-186 | Access token and registration are gone, the refresh token is not |
| `RingClients.RingClient.Attempt` | src/ring_control_provider.rs:171-195 | An attempt sends the call at most once, success means it was sent, and another attempt is asked for only if the call or the registration was itself answered with a 401, with authentication dropped |
| `RingClients.RingClient.Request` | src/ring_control_provider.rs:157-196 | The loop sends the call at most twice, the second time only because the first was itself answered with a 401; success means it was sent, and twice exactly after a 401; where nothing else fails, a 401 does make it send again |
| `RingClients.RingClient.DiscoveryBody` | src/ring_client.rs:108-131 | The same for discovery, which also retries a 401 of the session registration: it returns a 401 only after a second one |
| `RingClients.RingClient.VendorRequest` | src/ring_control_provider.rs:157-196 | The same for every other operation, the unlock included |
| `RingClients.UnlockIsSentAgain` | src/ring_control_provider.rs:55-93 | A run in which an unlock answered with a 401 is sent a second time |
| `RingClients.RingClient.StreamGrant` | src/ring_audio_grant.rs:19-38 | A stream ticket is asked for at most once |
| `RingClients.RingClient.PatchPushDevice` | src/ring_push_provider.rs:132-165 | The older record while it is remembered to be needed, else the app's; only if that is answered 4xx, not 401 or 429, the older one follows and is remembered for a day; every record carries the remembered token, and success means Ring's record holds it |
| `RingClients.RingClient.RegisterPushToken` | src/ring_push_provider.rs:89-104 | A token is refused unless it has 32 to 4096 printable characters; every push record sent inside carries it; success puts it in Ring's record and in memory, an error restores the previous remembered token |
| `RingClients.RingClient.ReplacePushToken` | src/ring_push_provider.rs:110-130 | The same while the previous token is withheld, including the second try after a 401: once connected, a 401 is returned only after a second one |
| `RingClients.RingClient.HandOff` | src/ring_push_session.rs:47-55 | With requests of others in between: success means a valid token that the client remembers and that Ring's record holds, unless something was lost on the way, in which case it may be empty, and that every Intercom was subscribed and is returned; where nothing fails it succeeds with every valid token; failure leaves the record as it was, on the token or empty, and the client with the old or the new token |
| `RingClients.RingClient.Others` | src/ring_client.rs:104-131 | Any number of requests of others leaves Ring's record as it was, on the remembered token or empty, and keeps an agreeing one unless something was lost |
| `RingClients.RecordIsLost` | src/ring_client.rs:132-160 | A run in which an operation succeeds after a 401 while the restore of the push token fails: the client remembers a token that Ring's record lacks |
| `RingClients.Drive` | src/ring_client.rs:104-131 | Any sequence of client calls, whatever is replied and whatever fails, leaves a safe trace, and disk, memory and newest accepted token equal unless a write is owed |
| `Lifecycle.StepKeeps` | src/ring_provider.rs:33-51 | Every step of client, discovery and enrollment keeps that only clients of the current session exist, provided an enrollment that fails after replacing the file does so while a client is cached |
| `Lifecycle.RunKeeps` | src/ring_enrollment_api.rs:15-52 | That holds in every reachable state |
| `Lifecycle.OldClientsNeverTouchTheNewSession` | src/ring_enrollment_api.rs:35-52 | After an enrollment completes, every load, session write and route publication is by a client of that session until the next one |
| `Lifecycle.UncoveredFailureMixesSessions` | src/ring_enrollment_api.rs:35-52 | That condition is exact: from every reachable state where it fails, the next client is built from a session whose enrollment never completed |
| `Lifecycle.UncoveredFailureHappens` | src/ring_enrollment_api.rs:35-52 | Such a state is reached by a first enrollment |
| `Lifecycle.NobodyIsStuck` | src/ring_enrollment_api.rs:15-52 | A client can start whenever nobody enrolls, and uses the cached session or else the stored one; an enrollment can start exactly when no client runs, and can always finish, with its session stored and nothing cached |
| `PushRotation.PushListener.HandOffToken` | src/ring_push_session.rs:47-55 | Every way the client's hand-off can end is one of the scripted outcomes; success means a valid token that Ring's record holds unless something was lost on the way |
| `PushRotation.PushListener.Prepare` | src/ring_push_rotation.rs:33-74 | Whatever client, store and registrar do, file, Ring record, remembered token, rotation flag and result are those of some script; success means that Ring's record holds the returned token unless, since the call began, a restore failed or a registration failed after Ring had carried it out; where nothing fails it succeeds, with the new registration if one is due or none is stored, else with the stored one |
| `PushRotation.PushListener.RegisterFirst` | src/ring_push_rotation.rs:39-52 | With nothing stored: write first, then hand off, by some script |
| `PushRotation.PushListener.Keep` | src/ring_push_rotation.rs:53-74 | With a registration stored: a due rotation is tried once, and otherwise or failing that the stored one is handed off, by some script |
| `PushRotation.PushListener.Rotate` | src/ring_push_rotation.rs:76-85 | Register, hand off, and only then write, by some script |
| `PushRotation.PushListener.Load` | src/ring_push_store.rs:73-114 | A loadable document is returned, any other is moved aside, also when the call then fails |
| `PushRotation.PushListener.PassesChecks` | src/ring_push_store.rs:171-181 | Accepts exactly documents with a token of 32 to 4096 printable characters and at most a hundred ids of 1 to 512 ASCII bytes |
| `PushRotation.PushListener.Remember` | src/ring_push_store.rs:48-60 | Takes an id over unless it is empty, over 512 bytes or known, and drops the oldest over a hundred |
| `PushRotation.StoredIdsAreTheNewestTaken` | src/ring_push_store.rs:48-60 | Over every run of acknowledgements the stored ids are the newest hundred of all ids taken over, in order and without repeats, and the registration stays |
| `PushRotation.IdIsKeptForAHundred` | src/ring_push_store.rs:48-60 | No id is forgotten before a hundred newer ones were taken |
| `PushRotation.ConfirmedIsAcknowledged` | src/ring_push_session.rs:131-142 | A listener that confirms messages one by one, with every write going through, holds exactly that registration |
| `PushRotation.QuotedIsTextLength` | src/ring_push_store.rs:143-151 | The byte counts behind the size limit are the lengths of the JSON text of the ids |
| `PushRotation.CopiesAgreeExactlyUnlessHalfWritten` | src/ring_push_rotation.rs:33-85 | When `prepare` succeeds, file and returned state agree if and only if a rotation's file was not replaced under a reported failure, and the client remembers the token |
| `PushRotation.ReplacedOnlyByHandedOff` | src/ring_push_rotation.rs:33-85 | Whatever fails, a valid stored registration stays or is replaced by one already handed off |
| `PushRotation.FailedRotationFallsBack` | src/ring_push_rotation.rs:53-74 | A failed rotation uses the old registration, with all copies agreeing, and is not repeated by itself |
| `PushRotation.StoreRoundTrip` | src/ring_push_store.rs:117-181 | Storing and loading is the identity exactly for valid documents within 64 KiB |
| `PushRotation.QuotesDoNotFit` | src/ring_push_store.rs:148-151 | A hundred admissible ids of quotes make a document over that limit |
| `PushRotation.RememberKeepsLoadable` | src/ring_push_store.rs:48-60 | `remember` keeps a document valid exactly when the id is ASCII or ignored |
| `PushRotation.PushListener.Serve` | src/ring_client.rs:132-160 | A request of somebody else on the same client, whether it succeeds or fails, keeps Ring's record on the remembered token unless something was lost |
| `PushRotation.PushListener.Work` | src/ring_push_worker.rs:101-193 | Any sequence of plans, reconnects, check-ins, messages, requests of others, enrollments and endings is a run of steps; and while connected with the client not replaced, Ring's record holds the listener's token unless, since its prepare began, a restore failed or a registration failed after Ring had carried it out |
| `PushRotation.CopiesAgreeThroughout` | src/ring_push_worker.rs:155-193 | Over every run, without premises: while connected the file agrees exactly unless the last prepare left it half written and nothing was written since, and the client remembers the token exactly unless an enrollment replaced it |
| `PushRotation.LoadableExactlyAfterHarmless` | src/ring_push_store.rs:171-181 | From a sound state a step leaves a file that loads if and only if it writes neither a registration with an invalid token nor an id outside ASCII |
| `PushRotation.NothingMovedAside` | src/ring_push_worker.rs:155-193 | Over every run of such steps nothing is ever moved aside |
| `PushRotation.HarmLosesTheRegistration` | src/ring_push_store.rs:48-60 | One other step, and the next `prepare` moves the registration aside |
| `PushRotation.OnlyAFirstRegistrationHarms` | src/ring_push_rotation.rs:39-52 | Of the prepares that happen, only a first registration can write an invalid token, and then it fails; a rotation never does, because the client refuses the token before anything is written |
| `Reconnect.ReconnectPolicy.Next` | src/ring_push_policy.rs:64-98 | New state and plan are the functions the rows below describe |
| `Reconnect.PolicyIsClosedForm` | src/ring_push_policy.rs:64-98 | For every history the two fields are min(5*2^k, 300), or 300 after a Reauth, and the suspect endings modulo three, all since the last stable attempt |
| `Reconnect.RotatesAtEveryThirdSuspect` | src/ring_push_policy.rs:64-98 | A rotation is planned exactly at every third ending since the last stable attempt that was a rejection or a drop within a minute |
| `Reconnect.DelayFollowsTheHistory` | src/ring_push_policy.rs:64-98 | The delay is the closed form lengthened by at most a quarter, never over 375 seconds; Reauth waits 300, Reload none |
| `Reconnect.RotationsArePaidFor` | src/ring_push_worker.rs:101-117 | Three times the rotations never exceeds the suspect endings |
| `SessionGates.SessionGate.Reserve` | src/ring_session_gate.rs:28-41 | Grants or refuses as the gate value says, expired cooldowns gone |
| `SessionGates.SessionGate.Release` | src/ring_session_gate.rs:43-51 | Acts on the live permit only |
| `SessionGates.ReleaseChanges` | src/ring_session_gate.rs:43-51 | A release changes the gate if and only if it returns the live permit: a repeated or stale one is void |
| `SessionGates.GrantsAreExclusive` | src/ring_session_gate.rs:28-51 | In any sequence of calls, between two grants for a device lies an effective release of the first one's own permit |
| `SessionGates.SessionsAreTenSecondsApart` | src/ring_session_gate.rs:28-51 | A grant comes at least ten seconds after every earlier effective release of that device |
| `SessionGates.GrantedExactly` | src/ring_session_gate.rs:28-51 | A permit is granted exactly if every earlier one of the device was given back and ten seconds have passed since each time |
| `Sessions.StepKeeps` | src/ring_audio_manager.rs:87-236 | Every step of starts, workers, relays, deletes and time keeps the invariant of gate, times, map, gauge, counters and deletes |
| `Sessions.RunKeeps` | src/ring_audio_manager.rs:87-236 | The invariant holds in every reachable state |
| `Sessions.ReleaseFreesOwn` | src/ring_audio_manager.rs:208-236 | A worker's release always finds its own permit live and sets its device's cooldown |
| `Sessions.SessionsOfADeviceNeverOverlap` | src/ring_audio_manager.rs:99-179 | Any two sessions of a device, direct or relay, never hold the permit together and lie ten seconds apart |
| `Sessions.GaugeIsConserved` | src/ring_audio_manager.rs:151-236 | The active gauge is the number of sessions counted in and not out, hence never negative, and every end is counted once under its own reason |
| `Sessions.DeleteReturnsAfterTeardown` | src/ring_audio_manager.rs:181-236 | A delete that found its session returns Ok only after the runner ended, the map entry is gone, the permit is back with its cooldown, and the end is counted under the last client reason stored before the worker read it, else the runner's |
| `Sessions.EndCountedUnderTheLastRequest` | src/ring_audio_manager.rs:181-236 | In every run with a delete that found its session and returned Ok, the end is counted under the reason of the last delete that found the session before the worker decided, if that is one a client may ask for, and else under the reason its runner ended with |
| `Sessions.RequestsAreStored` | src/ring_audio_manager.rs:181-196 | A session's stored reasons are those of the deletes that found it, in order |
| `Sessions.NoSessionIsStuck` | src/ring_audio_manager.rs:99-236 | In every reachable state every session that has not ended can take its next step, whatever the others do, and gets on by it |
| `Sessions.NoDeleteIsStuck` | src/ring_audio_manager.rs:181-206 | A delete that found its session can always check, and while waiting give up; it can wake exactly once the session is acknowledged |
| `Sessions.AdmittedExactly` | src/ring_audio_manager.rs:87-179 | A start is admitted exactly if no session of its device, direct or relay, holds the permit and the device is not cooling |
| `Decimals.NumberOfDecimal` | src/ring_expected_device.rs:31-44 | Reading a printed id gives the id back |
| `Decimals.PinIsCanonical` | src/ring_expected_device.rs:31-44 | A pin is accepted as an id exactly when it is the decimal spelling of that positive 64-bit id |
| `Decimals.ParseDigits` | src/ring_runtime_inventory.rs:62-65 | Reading digit by digit with an overflow test gives the number of the digits, or nothing if they exceed 64 bits |
| `Decimals.ParsesSpellings` | src/ring_runtime_inventory.rs:62-65 | An inventory id may have leading zeros and a plus sign, not a minus or nothing |
| `Routes.ValidateDevices` | src/config.rs:122-165 | Accepts exactly the configurations of audio Intercoms with at most 32 well-formed aliases, positive ids, an id each if there are several, and no id twice |
| `Routes.RouteTable.constructor` | src/ring_push_queues.rs:11-17 | A valid configuration gives a well-formed table with one queue per binding |
| `Routes.RouteTable.Plan` | src/ring_runtime_inventory.rs:53-97 | A plan exists exactly when the inventory has at most 32 distinct positive ids and no alias of another configured device, and then names exactly its ids |
| `Routes.RouteTable.Provision` | src/ring_runtime_inventory.rs:53-127 | The table stays well formed; it succeeds exactly if there is a plan and the new devices, if any, can be built; success is exactly configured plus discovered aliases, the latter `intercom-` and the id; surviving routes and queues are the same objects, new ones are new; a failed call changes neither |
| `Routes.RouteTable.Include` | src/ring_push_queues.rs:19-38 | Queue keys become exactly the bindings; kept queues are the same objects |
| `Routes.ProvisionAll` | src/ring_runtime_inventory.rs:32-127 | After any sequence of successful and failed discoveries the table is well formed, every route and queue that was there all along is the same object, and configured aliases always were |
| `Routes.TableKept` | src/ring_runtime_inventory.rs:98-127 | Extending a well-formed table by a plan keeps bindings and pairwise distinct ids |
| `Routes.OneRuntimePerDevice` | src/ring_expected_device.rs:6-28 | A request reaches only the pinned device, and all aliases and pins of one id reach one runtime |
| `Routes.TargetExactly` | src/ring_expected_device.rs:6-58 | Exactly when a request finds its device, and with which error it fails otherwise, for every alias, binding and pin |
| `Signaling.Exchange.Receive` | src/ring_signaling.rs:182-188 | The session id is that of the newest session announced, and changes with no other message |
| `Signaling.Exchange.Activate` | src/ring_signaling.rs:97-107 | Activation needs session and answer, is followed by the stream options if it is written, and cannot fail for want of a session id |
| `Signaling.Exchange.SessionMessage` | src/ring_signaling.rs:152-169 | Without a session id nothing is sent and the missing-session error returned, exactly then |
| `Signaling.RelayCall.Drive` | src/ring_relay_worker.rs:122-180 | In every run activation, camera options and the active report happen at most once and only after what they need; while the call goes on none of them is outstanding, the peer has the first answer and no other and every candidate in order, and nothing that ends a call has occurred; without write failures a call ends only if something that may end it has |
| `Signaling.RelayCall.React` | src/ring_relay_worker.rs:138-163 | Each arm ends the call with its own reason or not at all, an ordinary message or a connected peer never does, and reaches exactly the stage it proves; a keep-alive is sent exactly once there is a session |
| `Signaling.RelayCall.Handle` | src/ring_relay_worker.rs:182-199 | Every message is heard once; the first answer is taken, later ones are not, a candidate is given to the peer; a close ends the call, ordinary messages do not |
| `Signaling.RelayCall.MakeActive` | src/ring_relay_worker.rs:202-218 | Without an error everything due has been sent, nothing twice |
| `Negotiations.Negotiation.Collect` | src/ring_audio_worker.rs:139-183 | Ok means one activation after session and validated answer, the newest answer, and all candidates in arrival order within both limits, with camera options after each message that found session and camera; any error but a failed write means no reading of the inbox completes, and it is the one for what the inbox holds there; a write fails only by a fault; the missing-answer and missing-session errors never occur |
| `Negotiations.Negotiation.SettleIce` | src/ring_audio_worker.rs:185-206 | Late candidates are added until silence; an error means nothing completes the inbox, and is the one for what the inbox holds there |
| `Negotiations.Negotiation.PushIce` | src/ring_audio_worker.rs:208-221 | A candidate is taken exactly when at most 4096 bytes long and among the first 64 |
| `Negotiations.BlockedBefore` | src/ring_audio_worker.rs:155-176 | An unacceptable arrival before the call is ready rules out every completion |
| `Retention.RecordingStore.List` | src/ring_recording_store.rs:58-79 | Every manifest once, newest end first, or nothing if one is invalid, for every directory order; without faults it succeeds exactly if all are valid |
| `Retention.RecordingStore.Delete` | src/ring_recording_store.rs:100-107 | Both files go, or the manifest stays; without faults both go |
| `Retention.RecordingStore.Cleanup` | src/ring_recording_store.rs:136-149 | Keeps exactly the longest suffix of the eviction order that is within 30 days and 512 MiB, so the archive is within both; without faults it succeeds exactly if all manifests are valid; a failing deletion touches nothing outside the evicted prefix |
| `Retention.RecordingStore.Commit` | src/ring_recording_store.rs:28-56 | Success leaves the archive within both bounds, decided by times and sizes alone, with a strictly newest recording in it; without faults every well-formed recording of 128 bytes to 8 MiB whose times are in order succeeds if the stored ones are valid; failure stores nothing (a media file alone only if removing it failed too) or leaves an interrupted eviction |
| `Retention.SortInOrder` | src/ring_recording_store.rs:136-149 | Sorting by save time what is sorted by end gives save time first and latest end first among equals |
| `Retention.GreedyStep` | src/ring_recording_store.rs:140-147 | The test of the loop is, at each item, whether what is left fits |
| `Retention.SurvivalIsDecided` | src/ring_recording_store.rs:136-149 | A survivor is young and fits with all surely saved after it; one that is young and fits with all possibly after it survives |
| `Retention.StrictlyNewestSurvives` | src/ring_recording_store.rs:28-56 | A valid recording saved strictly last is never evicted |
| `Retention.BurstCanEvictItsLast` | src/ring_recording_store.rs:136-149 | Among full-size recordings of one second, the one that ended last survives if and only if there are at most 64: "strictly" is needed |
| `Migration.Archive.CopyTree` | packaging/home-assistant/recording-storage.sh:68-97 | The source stays whole, the target only gains; success means everything below is in the target; without faults it succeeds exactly when the tree fits |
| `Migration.Archive.CopyFile` | packaging/home-assistant/recording-storage.sh:88-95 | Success means equal bytes; an existing target file is never touched |
| `Migration.DeviceLineNamesANumber` | packaging/home-assistant/recording-storage.sh:82 | A device directory is named by the decimal spelling of a positive number of at most twenty digits |
| `Migration.NumberNamesADeviceLine` | packaging/home-assistant/recording-storage.sh:82 | Every such name is accepted |
| `Migration.RecordingLineParts` | packaging/home-assistant/recording-storage.sh:87-88 | A recording is named by a hyphenated lower-case UUID and `.json`, `.mp4` or `.webm` |
| `Migration.PartsMakeARecordingLine` | packaging/home-assistant/recording-storage.sh:87-88 | Every such name is accepted |
| `Migration.OneLineDecides` | packaging/home-assistant/recording-storage.sh:82-88 | A name on one line is accepted exactly if it matches; one of several lines already if its last one does |
| `Migration.Archive.RetireTree` | packaging/home-assistant/recording-storage.sh:99-123 | From any two trees, only files the target holds byte for byte are removed; success empties the directory; without faults it succeeds exactly when every file is held |
| `Migration.Archive.Migrate` | packaging/home-assistant/recording-storage.sh:125-135 | In every state on the way each source file is whole in source or target and the target keeps what it had; a failure while copying leaves the source whole; success leaves it empty and the target with both archives; without faults it succeeds exactly when every entry fits; once copied, a later run can finish |
| `Migration.RemoveIsSafe` | packaging/home-assistant/recording-storage.sh:112-121 | Removing a file that the target holds, or an empty directory, keeps every state safe |
| `Migration.CopiedCanRetire` | packaging/home-assistant/recording-storage.sh:99-123 | What was copied in full passes every test of the retiring phase |
| `Migration.RetiringCanResume` | packaging/home-assistant/recording-storage.sh:68-123 | What is left of a fully copied source passes every test of a new migration |

### Where the code and its documentation differ

- The repository's README says that an unlock is never retried. The request loop sends it a second time after the first
  was answered with a 401 and authenticating again succeeded (src/ring_control_provider.rs:171-195), and never for any
  other reason; `UnlockIsSentAgain` is such a run.
- While the push listener is connected, any other request may register a new session, which drops the push token from
  Ring's record; a failed restore is only logged (src/ring_client.rs:132-160). File and memory then hold a token that
  Ring does not have, until the next session record; `RecordIsLost` is such a run, and `Work` says what it takes.
- The first cycle is meant to reach back to the start (src/ring_unlock_watch.rs:111-112). An Intercom that could not be
  read by the poll that first read another is treated like one added later, so its first look does not.
  `IntercomsAreIndependent` says exactly when.
- A commit whose start lies after its end is stored and then reported as an error, because listing rejects the manifest
  it wrote; `Commit` states the error. The HTTP layer rejects such times before.
- A migration whose copy broke off may leave a partial file in the target. Nothing is lost, but later migrations refuse
  until that file is removed: the tree does not fit.

### Premises

- For its verdicts, the watchdog's clock never falls more than 3510 seconds behind a time it showed before; for counting
  each ding once, 3600 seconds, and one history id has one time. Both bounds are exact. Its health, and that no ding is
  forgotten unjudged, need neither. The gate's clock is a monotone one.
- Sequence theorems about delivery hold below 2^64-1 publications; saturation itself is stated.
- Replacing a file is atomic, but an error can be reported after the rename. That case is modelled in the client and in
  the push rotation; the lifecycle theorem has the exact condition under which it does no harm.
- Ring's history pages list an item once.
- A recording id is new when drawn, and a manifest's file name is the id inside it.
- Source and target of a migration are disjoint trees that nobody else changes while one phase runs.

## Left out

- HTTP routing, authentication, request logging and metrics text: no state of their own.
- WebRTC, RTP, STUN and socket code: outside the repository's own logic; whether a peer takes an answer is free.
- JSON, RFC 3339, FCM and MCS decoding: decoded values are inputs; strings stand for byte strings.
- File permissions, symbolic-link checks of the session and push files, fsync and zeroizing: a file is its content.
- PushRotation.PushListener.Prepare: other requests run inside its hand-offs and between them; those before the first or after the last are steps before or after it, which they commute with, because `prepare` touches Ring's record in its hand-offs only.
- Restarts: every run starts with an empty memory and ends with the process.
- Cancelled futures and poisoned locks: steps are not cut short.
- Camera calls other than the answer check, volume updates, inventory validation and status-code mapping: one-branch facts.
- The order in which the bridge polls Intercoms, and the back-off between polls.
- Routes.RouteTable.Provision: runtimes are told apart by handles; building one is a parameter, its contents are not modelled.
- Sessions.SessionsOfADeviceNeverOverlap: speaks of one gate; a device that vanishes from discovery and returns gets a new runtime and gate.
- Sessions.DeleteReturnsAfterTeardown: a delete that finds no session returns at once, also between map removal and release, and is not covered.
- Retention.RecordingStore.Cleanup: the byte total is unbounded; a 64-bit sum would need 2^41 recordings of the largest size.
- UnlockHistory.UnlockWatch.PollUnlocks: cursors are values in a map, not shared objects; publication order within one device is kept.
- Storage directory names and network mount checks of the migration script: pure string tables.
