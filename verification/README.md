# i3 FE core: verified models

Dafny models of the stateful parts of the i3 functional element core, and proofs about them. The
properties are those of NENA-STA-010.3f-2021 and of the RFCs it builds on, stated for all inputs
and all runs.

| files | what they model |
|---|---|
| `Prelude.dfy`, `Json.dfy` | optional values, Python's insertion-ordered dict, JSON values |
| `StateStore.dfy` | state bundles, the in-process store, NOTIFY bodies (sections 2.4.1 and 2.4.2) |
| `RateFilter.dfy` | the rate filter that both state notifiers carry, on values |
| `SipModel.dfy`, `SipInvariant.dfy` | the SIP notifier on values, and what each of its operations keeps |
| `Pipeline.dfy`, `PipelineTheorems.dfy` | notifiers, SIP notifier, clock and event loop as one state machine; what holds over its runs |
| `SubscribeTheorems.dfy` | what a SUBSCRIBE does, at once and over the rest of a run |
| `DeliveryTheorems.dfy` | what one fan-out and one timer do to every subscription |
| `Deadline.dfy` | how late a state change can reach a subscriber |
| `LazyPruning.dfy` | simulation by a notifier that removes subscriptions exactly at their expiry |
| `Notifiers.dfy` | the notifiers and subscriptions as mutable objects, proved to make the steps of that state machine |
| `DrModels.dfy` | Discrepancy Reporting wire objects (section 3.7) |
| `Discrepancy.dfy`, `SubmitRate.dfy` | one Discrepancy Reporting component, and its rate limit over runs of calls |
| `DrNetwork.dfy` | several components over a network that loses, delays, reorders and repeats messages |
| `CacheLoads.dfy` | the file operations of the mtime-keyed dataset cache, by any number of loads at once |
| `Cache.dfy`, `WatchOverlap.dfy` | the cache and its watch loop as they are written; the watch loop beside other loads |
| `ChainWalk.dfy`, `Base64.dfy`, `Jws.dfy` | the two certificate chain walks, base64, Flat JWS signing and verifying |
| `NtpHealth.dfy` | the NTP health loop and its closed form |
| `Timestamps.dfy` | i3 timestamps as text and back |

`dafny verify dfyconfig.toml` checks everything.

## How the models are built

Code that updates objects is modelled twice: once as a class whose methods have the loops and the
assignments of the original, and once as functions on values. Each method is proved to do to the
view of its object what the function does, and the theorems about runs are about the functions.
For the pipeline, `PipelineTheorems.ViewsMakeUpRun` puts the steps of the methods together into a run.

* **Time** is an integer read once per step. It never goes back. A timer never runs before its
  deadline, may run any time after it, and never once cancelled. *Prompt* runs are those in which
  a due timer runs before anything else happens.
* **The pipeline** starts after lifespan startup with any store contents, and its stores are
  written only through the notifiers. The decisions of the two SUBSCRIBE hooks are part of the
  request. A NOTIFY counts when it is attempted. Every store write has a number, and a body is
  recorded together with the number of the write it shows; no component reads the number.
* **Subscription objects** are named by their order of creation, so that an object that was
  replaced or pruned stays visible together with its timers.
* **Discrepancy Reporting** coroutines are cut where they await. A message once sent may arrive
  any number of times, in any order, or never. Authorization hooks answer as they like each time.
  The history of what was accepted and resolved where is recorded beside the components.
* **Files** keep their place when they are renamed, so that a load which has a file open goes on
  writing into it. Each operation of a `load` can work or fail in each of the ways the code tells
  apart. Text that is not one whole cache entry is text that `json.load` rejects.
* **A version of the dataset source** is named by its mtime, which every write raises. What the
  FE's dataset does is a parameter with one law: populating from a serialised payload gives what
  populating from its source gave.
* **Cryptography, X.509 and JSON text** are parameters too: a signature made with the private key
  verifies with the leaf, DER and JSON text read back, issuance is any relation.

## Where the code and its documentation differ

The model follows the code.

* The comment that a last-notify time of 0.0 makes the first notification immediate
  (`src/i3_fe_core/state/element_state.py:91`) holds exactly once the monotonic clock has reached the
  interval: `RateFilter.FirstDispatchIsImmediate`, and `RateFilter.FirstDispatchWaits` for one that
  waits.
* A rate filter with late timers does not keep consecutive dispatches apart:
  `RateFilter.LateTimerCrowds` is a run in which two are simultaneous, and
  `RateFilter.OnlyOvertakenTimersCrowd` says exactly when it happens. What always holds is the
  spacing of dispatches with one between them.
* Startup writes a service bundle without a posture over the seeded one
  (`src/i3_fe_core/app/lifecycle.py:107-109`), so the guard that reads an unset posture as Green,
  called unreachable at `src/i3_fe_core/state/service_state.py:268`, is reached, and the configured
  initial posture is shown only if it is Green: `Notifiers.Boot`. That posture and the intervals are
  parameters of the notifiers; the factory (`src/i3_fe_core/app/factory.py:164-186`) leaves them at
  Green and zero, so only a program that constructs the notifiers itself can notice.
* A disruption set by others is said never to be cleared by the NTP loop
  (`src/i3_fe_core/app/lifecycle.py:195`). Any unhealthy check takes ownership of it:
  `NtpHealth.AnyStateIsTakenOver` says when it is cleared, `NtpHealth.ForeignDisruptionIsCleared`
  gives one that is.
* `verify_jws` is documented to return a report for every failure. A thumbprint outside ASCII
  raises instead (`src/i3_fe_core/logging/jws_signer.py:458-460`): `Jws.RaisesExactly` says when,
  `Jws.ForeignThumbprintRaises` gives one.
* The greedy chain walk is not complete. It answers True for every order of the supplied
  certificates exactly when there is no dead end (`ChainWalk.EveryOrderIffNoDeadEnd`), and for some
  order exactly when there is a path (`ChainWalk.SomeOrderIffPath`);
  `ChainWalk.GreedyMissesCrossCertificate` is a leaf it misses.
* A report whose type-specific part uses the key of an unset optional prolog field serialises, but
  does not read back as itself: `DrModels.ReportRoundTrip` gives the exact condition,
  `DrModels.ClaimedKeyComesBackAsField` such a report.
* Cache write failures are said to be logged and swallowed (`src/i3_fe_core/gis/cache.py:48-49`). An
  OSError is (`Cache.OsErrorsAreSwallowed`), anything else is not: `Cache.LoadReturnsIff` says
  exactly when a load returns, `Cache.UnwritablePayloadRaises` gives one that raises.
* Two `load` calls that overlap, which nothing in `DatasetCache` rules out, can leave a cache entry
  that is older than the mtime it is filed under: `CacheLoads.OverlapFilesStaleVersion`. It takes a
  restore of an older hit between another load's populate and its serialise; without one no entry
  is older than its mtime in any interleaving (`CacheLoads.InterleavedLoadsKeepFilesFresh`).
* A hit of overlapping loads can still populate a newer version than the mtime it saw:
  `CacheLoads.RacingHitIsInexact`. `CacheLoads.StaysExactIff` and `CacheLoads.HitsExactlyIff` say
  exactly when; loads that follow one another always hit exactly (`CacheLoads.HitAgreesWithSource`).
* `format_i3` drops the seconds of an offset, so that another instant is read back exactly when the
  offset is not whole minutes: `Timestamps.SameInstantIffWholeMinutes`, and
  `Timestamps.OddOffsetMovesInstant` for one.
* Whether `%Y` pads years below 1000 depends on the C library and the Python version. Where it does
  not, which is what is modelled, the report grammar refuses them:
  `Timestamps.GrammarNeedsFourDigitYear`, `Timestamps.ShortYearIsRefused`.
* A resolution call-back that arrives before the answer to the submission has been processed is
  refused with 473 and lost: `DrNetwork.CallbackIsStored` says when, `DrNetwork.CallbackCanOvertake`
  reaches it. The reporter has to poll.

## Model

| member | source | states |
|---|---|---|
| `PipelineTheorems.NoUpdateIsLost` | src/i3_fe_core/notify/sip_notifier.py:429-535 | in every run, for every current unexpired subscription: its last NOTIFY shows the current store body, or its upstream notifier has a deferred dispatch outstanding, or it has a live timer and the current body queued |
| `PipelineTheorems.QuiescentMeansDelivered` | src/i3_fe_core/notify/sip_notifier.py:507-525 | in every run, once no deferred dispatch is outstanding and no body is queued, every current subscriber has been shown the current state |
| `PipelineTheorems.NeverReordered` | src/i3_fe_core/notify/sip_notifier.py:376-383 | in every run, the store versions shown to one Call-ID within one event package never decrease, through fan-out, queued bodies, watchdog reads and refreshes; each body shown is the one the store held after that very write |
| `PipelineTheorems.OnlyCurrentSubscribersAreNotified` | src/i3_fe_core/notify/sip_notifier.py:507-511 | every NOTIFY a step adds is for an unexpired object that is the table entry of its Call-ID, earlier NOTIFYs stay, and an uncancelled timer belongs to a current or an expired object |
| `PipelineTheorems.EveryNotifyNamesItsSource` | src/i3_fe_core/state/service_state.py:235-276 | every NOTIFY of every run names the element id, or the service, name, service id and domain, that its notifier was made for, each in its own member, and carries a posture iff posture is supported |
| `SubscribeTheorems.SubscribeIsHandled` | src/i3_fe_core/notify/sip_notifier.py:262-386 | for every request, written out from the request and the size of the table: 489, 403, 423 below 60 s and 503 change nothing; Expires 0 takes the Call-ID off the table, cancels the timer of the object it named and sends nothing; an accepted one puts a new object under the Call-ID with the Contact, package and interval asked for and an expiry of the requested time or 3600 s, at most 86400 s, cancels the replaced object's timer, and sends exactly one NOTIFY with the body of the package; all other entries and objects stay as they were |
| `SubscribeTheorems.EndedIsIdle` | src/i3_fe_core/notify/sip_notifier.py:330-335 | in every state of the invariant: after an authorised Expires 0 the Call-ID names no object, no timer of the object it named can run, and everything else is unchanged |
| `SubscribeTheorems.UnsubscribedHearsNothing` | src/i3_fe_core/notify/sip_notifier.py:330-335 | in every run: from an unsubscribe on its Call-ID is sent nothing until a later SUBSCRIBE for it is admitted |
| `SubscribeTheorems.AdmittedBegins` | src/i3_fe_core/notify/sip_notifier.py:337-386 | in every state of the invariant: an accepted SUBSCRIBE makes the current object and sends it what the store of its package holds, and leaves no timer of a replaced object running |
| `SubscribeTheorems.AcceptedLasts` | src/i3_fe_core/notify/sip_notifier.py:366-386 | in every run: until the granted time is over, or a SUBSCRIBE for its Call-ID ends or refreshes it, an accepted subscription stays the current one with what was asked for, through any fan-outs, timers and cleanups |
| `SubscribeTheorems.PruningIsExact` | src/i3_fe_core/notify/sip_notifier.py:441-443 | a fan-out and a cleanup pass leave exactly the unexpired entries in the table; the cleanup pass also cancels the timers of the others and sends nothing |
| `DeliveryTheorems.FanOutSendsOrQueues` | src/i3_fe_core/notify/sip_notifier.py:429-466 | a fan-out, object by object: an unexpired table entry of the package is sent to at once if it has no interval or its interval has passed, and then has nothing queued and one timer an interval ahead; otherwise the new body replaces the queued one and the running timer stays; all other objects are left alone |
| `DeliveryTheorems.FanOutNotifies` | src/i3_fe_core/notify/sip_notifier.py:429-443 | a fan-out, Call-ID by Call-ID: exactly one NOTIFY, with that body, Contact and the next CSeq, for an addressed entry whose interval has passed, and none for any other |
| `DeliveryTheorems.TimerSendsOnce` | src/i3_fe_core/notify/sip_notifier.py:507-525 | a subscription timer sends the queued body, else what the store of the package holds, once, and arms the next timer; after expiry it sends nothing and leaves no timer; no other object is touched |
| `PipelineTheorems.SpacingWithLateTimers` | src/i3_fe_core/state/element_state.py:143-175 | however late timers run: pending exactly when one deferred dispatch is outstanding, dispatches with one between them at least the interval apart, consecutive NOTIFYs of one subscription at least its interval apart, at most one timer of it able to run |
| `PipelineTheorems.SpacingWithPromptTimers` | src/i3_fe_core/notify/sip_notifier.py:477-505 | with prompt timers: consecutive dispatches at least the interval apart; a rate-filtered subscription gets a NOTIFY exactly every interval and never waits longer while it is current and unexpired |
| `LazyPruning.PruningIsInvisible` | src/i3_fe_core/notify/sip_notifier.py:429-443 | in runs in which the capacity gate never rejects, each Call-ID is sent the same NOTIFYs at the same times as by an ideal notifier that removes a subscription exactly at its expiry |
| `LazyPruning.KeysPointwise` | src/i3_fe_core/notify/sip_notifier.py:434-440 | a fan-out serves each listed matching subscription once, exactly as the rate filter would on its own, and leaves all others alone; the order of the table does not show in the NOTIFYs of a Call-ID |
| `Deadline.ShownByDeadline` | src/i3_fe_core/notify/sip_notifier.py:454-525 | if no timer runs more than L late: whoever is current and unexpired more than the package's interval plus the subscription's own plus 2 L after a store write has been shown that write or a later one, through both coalescing stages |
| `Deadline.ShownByPromptDeadline` | src/i3_fe_core/notify/sip_notifier.py:454-525 | with prompt timers the two intervals alone are enough |
| `Deadline.OnTimeStep` | src/i3_fe_core/state/element_state.py:143-175 | every step in which no timer is more than L late keeps: undispatched versions are younger than the last dispatch, every served subscription has or queues what was dispatched and was notified within its interval plus L, and every NOTIFY shows what was written more than the package's interval plus L before it |
| `Pipeline.StartedInv` | src/i3_fe_core/app/lifecycle.py:99-109 | whatever the stores hold after startup, the invariant of the pipeline holds with no subscription |
| `Pipeline.StepInv` | src/i3_fe_core/notify/sip_notifier.py:262-553 | every step of the pipeline, at any time the clock allows, keeps: the rate filters in order, timers owned, histories spaced and ordered, nothing lost in either package |
| `Pipeline.WriteInv` | src/i3_fe_core/state/element_state.py:119-120 | a store write followed by the rate filter keeps the invariant: either the fan-out serves everyone or a dispatch is outstanding, and the other package is untouched |
| `Pipeline.DeferredInv` | src/i3_fe_core/state/element_state.py:170-191 | a deferred dispatch, however late, keeps the invariant |
| `Pipeline.QueuedIsCurrent` | src/i3_fe_core/notify/sip_notifier.py:513-515 | a body queued in a current subscription is the body the store would publish now, unless a dispatch is still to come |
| `Pipeline.FanOutOther` | src/i3_fe_core/notify/sip_notifier.py:438-439 | fanning out one package leaves the freshness of the other package alone |
| `RateFilter.SchedulePreserves` | src/i3_fe_core/state/element_state.py:143-168 | a schedule call keeps the rate filter invariant (one outstanding timer iff pending; spacing by two) |
| `RateFilter.DeferredPreserves` | src/i3_fe_core/state/service_state.py:302-304 | a deferred dispatch at any time at or after its deadline keeps that invariant |
| `RateFilter.OnlyOvertakenTimersCrowd` | src/i3_fe_core/state/element_state.py:147-172 | an immediate dispatch never comes less than an interval after the one before; a deferred one does exactly when the window is still closed, which a timer that was not overtaken rules out |
| `RateFilter.LateTimerCrowds` | src/i3_fe_core/state/element_state.py:170-175 | a concrete run with interval 10: a timer that runs one unit late repeats the dispatch made at the same time |
| `RateFilter.FirstDispatchIsImmediate` | src/i3_fe_core/state/element_state.py:91-92 | the first change is dispatched at once iff the clock has reached the interval; otherwise a timer is set for when it does |
| `RateFilter.FirstDispatchWaits` | src/i3_fe_core/state/element_state.py:143-168 | a concrete first change that waits: interval 10 on a clock at 3 |
| `RateFilter.PromptScheduled` | src/i3_fe_core/state/service_state.py:282-300 | before any due deadline, a schedule call keeps all consecutive gaps at least the interval |
| `RateFilter.PromptDeferred` | src/i3_fe_core/state/service_state.py:302-307 | so does a deferred dispatch whose timer has not been overtaken |
| `SipInvariant.FanOutPreserves` | src/i3_fe_core/notify/sip_notifier.py:429-443 | a fan-out keeps the notifier invariant, although it drops expired entries without cancelling their timers, and leaves every unexpired matching subscription up to date |
| `SipInvariant.QueuePreserves` | src/i3_fe_core/notify/sip_notifier.py:459-466 | queueing keeps the invariant and never has to start a timer: one is already running |
| `SipInvariant.DeliverPreserves` | src/i3_fe_core/notify/sip_notifier.py:468-491 | delivering to a current subscription whose interval has passed, with a body no older than any it has seen, keeps the invariant |
| `SipInvariant.TimerPreserves` | src/i3_fe_core/notify/sip_notifier.py:507-525 | a live timer keeps the invariant, and if its object is unexpired then the object is the current one |
| `SipInvariant.SubscribePreserves` | src/i3_fe_core/notify/sip_notifier.py:262-386 | a SUBSCRIBE of any kind (refused, refresh, new, unsubscribe) keeps the invariant |
| `SipInvariant.UnsubscribePreserves` | src/i3_fe_core/notify/sip_notifier.py:330-335 | an unsubscribe leaves no live timer behind |
| `SipInvariant.CleanupPreserves` | src/i3_fe_core/notify/sip_notifier.py:541-553 | a cleanup pass keeps the invariant |
| `StateStore.BodiesDetermineBundles` | src/i3_fe_core/state/service_state.py:235-276 | a body shows everything in its bundle, except that an unset posture reads as plain Green and that a posture is hidden when unsupported; nothing else is confused |
| `StateStore.BodiesSay` | src/i3_fe_core/state/service_state.py:235-276 | what each member of the two bodies is, an empty element or posture reason being left out, an empty service reason not, and an unset posture reading as Green without a reason |
| `StateStore.SeedSurvivesStartup` | src/i3_fe_core/state/service_state.py:265-274 | the body with the posture reset at startup equals the body with the seeded one iff posture is unsupported or the seed is Green |
| `StateStore.InProcessStateStore.constructor` | src/i3_fe_core/state/store.py:153-156 | the startup defaults |
| `StateStore.InProcessStateStore.SetElementState` | src/i3_fe_core/state/store.py:160-161 | replaces the element bundle and nothing else |
| `StateStore.InProcessStateStore.SetServiceState` | src/i3_fe_core/state/store.py:166-167 | replaces the service bundle and nothing else |
| `Notifiers.SipSubscription.constructor` | src/i3_fe_core/notify/sip_notifier.py:93-126 | a new object: nothing sent, nothing queued, no timer |
| `Notifiers.SipSubscription.CancelTimer` | src/i3_fe_core/notify/sip_notifier.py:477-479 | the cancelled entry can no longer run and the rest of the object is unchanged |
| `Notifiers.SipSubscription.ScheduleTimer` | src/i3_fe_core/notify/sip_notifier.py:493-505 | arms one timer an interval ahead, and only when there is none |
| `Notifiers.ElementStateNotifier.constructor` | src/i3_fe_core/state/element_state.py:86-93 | a fresh rate filter over the given store |
| `Notifiers.ElementStateNotifier.SetState` | src/i3_fe_core/state/element_state.py:103-120 | no effect when state and reason are unchanged; otherwise the store holds the new bundle and the rate filter and the fan-out act as the state machine says, with the body of the new bundle |
| `Notifiers.ElementStateNotifier.ScheduleNotify` | src/i3_fe_core/state/element_state.py:143-168 | the rate filter acts as on values, and fans out exactly when the window has passed |
| `Notifiers.ElementStateNotifier.DeferredDispatch` | src/i3_fe_core/state/element_state.py:170-172 | clears the pending flag and fans out what the store holds when it runs |
| `Notifiers.ElementStateNotifier.DispatchNotify` | src/i3_fe_core/state/element_state.py:174-191 | records the time and fans out the current body |
| `Notifiers.ServiceStateNotifier.constructor` | src/i3_fe_core/state/service_state.py:138-168 | seeds the posture exactly when it is supported and the store has none, and keeps state and reason |
| `Notifiers.ServiceStateNotifier.SetState` | src/i3_fe_core/state/service_state.py:178-201 | as for the element; the posture is carried across |
| `Notifiers.ServiceStateNotifier.SetSecurityPosture` | src/i3_fe_core/state/service_state.py:203-233 | no effect when posture and reason are unchanged; otherwise only the posture changes and is published |
| `Notifiers.ServiceStateNotifier.ScheduleNotify` | src/i3_fe_core/state/service_state.py:282-300 | mirrors the element rate filter |
| `Notifiers.ServiceStateNotifier.DeferredDispatch` | src/i3_fe_core/state/service_state.py:302-304 | mirrors the element notifier |
| `Notifiers.ServiceStateNotifier.DispatchNotify` | src/i3_fe_core/state/service_state.py:306-328 | mirrors the element notifier |
| `Notifiers.SipNotifier.constructor` | src/i3_fe_core/notify/sip_notifier.py:198-213 | an empty table, registered with both notifiers |
| `Notifiers.SipNotifier.DeliverNotify` | src/i3_fe_core/notify/sip_notifier.py:468-491 | cancels the old timer, clears the queue, counts and records the NOTIFY, arms the next timer |
| `Notifiers.SipNotifier.RateFiltered` | src/i3_fe_core/notify/sip_notifier.py:445-466 | sends or queues as the interval says, latest body wins |
| `Notifiers.SipNotifier.DoFanOut` | src/i3_fe_core/notify/sip_notifier.py:429-443 | the loop over the table of objects and the removal of what it found expired equal the fan-out of the state machine, objects not in the table included |
| `Notifiers.SipNotifier.DoTimerFired` | src/i3_fe_core/notify/sip_notifier.py:507-525 | sends the queued body, else what the store holds now, unless the object has expired |
| `Notifiers.SipNotifier.HandleSubscribe` | src/i3_fe_core/notify/sip_notifier.py:262-386 | for every request the response, the table, the objects and the NOTIFYs, written out from the request (see SubscribeTheorems.SubscribeIsHandled): refusals change nothing, Expires 0 removes the entry and cancels its timer, an accepted request makes the new object, cancels the timer of a replaced one and sends the initial NOTIFY |
| `Notifiers.SipNotifier.SendCurrentState` | src/i3_fe_core/notify/sip_notifier.py:527-535 | the initial NOTIFY shows what the store of its package holds |
| `Notifiers.SipNotifier.DoCleanup` | src/i3_fe_core/notify/sip_notifier.py:541-553 | removes exactly the expired entries and cancels their timers |
| `Notifiers.StateComponents.constructor` | src/i3_fe_core/app/factory.py:164-186 | the wired components start in a state from which the run theorems speak |
| `Notifiers.StateComponents.Startup` | src/i3_fe_core/app/lifecycle.py:99-109 | writes clean defaults into both stores past the notifiers, the posture back to None, and leaves the components where the runs start |
| `Notifiers.Boot` | src/i3_fe_core/app/lifecycle.py:99-109 | construction and startup: afterwards the service body shows the configured initial posture iff posture is unsupported or that posture is Green |
| `Notifiers.StateComponents.SetElementState` | src/i3_fe_core/state/element_state.py:103-120 | the real objects make exactly the step of the state machine |
| `Notifiers.StateComponents.SetServiceState` | src/i3_fe_core/state/service_state.py:178-201 | the same for the service state |
| `Notifiers.StateComponents.SetSecurityPosture` | src/i3_fe_core/state/service_state.py:203-233 | the same for the posture |
| `Notifiers.StateComponents.ElementDeferred` | src/i3_fe_core/state/element_state.py:170-172 | the same for a deferred element dispatch |
| `Notifiers.StateComponents.ServiceDeferred` | src/i3_fe_core/state/service_state.py:302-304 | the same for a deferred service dispatch |
| `Notifiers.StateComponents.IncomingSubscribe` | src/i3_fe_core/notify/sip_notifier.py:262-386 | the same for a SUBSCRIBE, together with its response and its effects written out from the request |
| `Notifiers.StateComponents.SubscriptionTimer` | src/i3_fe_core/notify/sip_notifier.py:507-525 | the same for a subscription timer, of a current object or of one that has left the table |
| `Notifiers.StateComponents.CleanupPass` | src/i3_fe_core/notify/sip_notifier.py:541-553 | the same for a cleanup pass |
| `DrNetwork.ResolutionProvenance` | src/i3_fe_core/discrepancy/service.py:502-520 | in every run over a network that loses, delays, reorders and repeats messages, a resolution stored by a component for one of its reports was recorded before by some resolve() for exactly that (agency, id) pair, on a report posted there under that pair |
| `DrNetwork.ResolutionIsForOwnReport` | src/i3_fe_core/discrepancy/service.py:320-349 | with one component per agency and reports from build_report, that report was posted by the very component that stores the resolution |
| `DrNetwork.SubmissionAgreement` | src/i3_fe_core/discrepancy/service.py:467-480 | with reports from build_report, whatever a component has on record as submitted is held where it was posted to, whatever the interleaving at awaits, so neither poll ever answers 473 for it |
| `DrNetwork.PollsTellTheHistory` | src/i3_fe_core/discrepancy/service.py:274-314 | both polls answer exactly what the history says: 473 never accepted, 475 and 200 when the last thing was that the report came in (again), 474 and the resolution, readable as itself, when it was resolved since |
| `DrNetwork.SubmissionArrives` | src/i3_fe_core/discrepancy/service.py:418-496 | from any reachable state: a report that is posted, accepted and answered with nothing lost ends on record at its sender and held by its responder under the same pair |
| `DrNetwork.ResolutionComesHome` | src/i3_fe_core/discrepancy/service.py:335-353 | from any reachable state in which a report is on record and held: resolve() and the arrival of its call-back end with that very resolution stored where the report came from |
| `DrNetwork.CallbackIsStored` | src/i3_fe_core/discrepancy/service.py:502-520 | in every reachable state, a call-back that arrives is stored iff the responder is authorised, it is for this component's agency, and the report is on record by then; any other changes nothing |
| `DrNetwork.CallbackCanOvertake` | src/i3_fe_core/discrepancy/service.py:467-520 | from any reachable state: a run in which the call-back overtakes the answer to the submission, is lost, and the report ends on record without its resolution while the poll gives it |
| `DrNetwork.StepInv` | src/i3_fe_core/discrepancy/service.py:202-535 | every step of every component keeps the agreement of answers, records, polls and history |
| `DrNetwork.StoredWasRecorded` | src/i3_fe_core/discrepancy/service.py:507-520 | a resolution that comes out of a message is the one that was recorded, under its own key |
| `DrNetwork.KeyTravels` | src/i3_fe_core/discrepancy/models.py:186-197 | agency and id of a report survive the wire: no type-specific key can replace them |
| `DrNetwork.ResolvingIsComplete` | src/i3_fe_core/discrepancy/service.py:337-348 | whatever resolve() records has its mandatory attributes set, so its call-back can be read |
| `Discrepancy.DiscrepancyReporting.constructor` | src/i3_fe_core/discrepancy/service.py:189-193 | nothing received, submitted or sent |
| `Discrepancy.DiscrepancyReporting.ReceiveReport` | src/i3_fe_core/discrepancy/service.py:202-268 | exactly when each status is given: 454 for an unreadable body, else 471 for an unauthorised one, else 470 for a problemService that is none of the known ones, else an exception for a key or service that cannot be hashed; anything else is answered 201 and replaces a report with the same agency and id together with its resolution; a refused one changes nothing |
| `Discrepancy.DiscrepancyReporting.GetStatusUpdate` | src/i3_fe_core/discrepancy/service.py:274-294 | exactly when 471, 473 and 474 are answered for this pair; otherwise 200 with the estimate given when the report came in |
| `Discrepancy.DiscrepancyReporting.GetResolution` | src/i3_fe_core/discrepancy/service.py:300-314 | exactly when 471, 473 and 475 are answered for this pair; otherwise 200 with the recorded resolution |
| `Discrepancy.DiscrepancyReporting.Resolve` | src/i3_fe_core/discrepancy/service.py:335-353 | KeyError for an unknown pair; else a resolution with each attribute as given, for the service named in the report, else this service, else this element, is recorded before the call-back is posted, and stays recorded if the URI is unusable |
| `Discrepancy.DiscrepancyReporting.BeginSubmit` | src/i3_fe_core/discrepancy/service.py:431-450 | suppressed exactly when unforced and the time recorded for the same report type, problem service and problem is less than the interval ago; failed exactly when one of the three cannot be hashed, or, not being suppressed, the report cannot be serialised; otherwise stamped and posted; the state is untouched before the answer |
| `Discrepancy.DiscrepancyReporting.EndSubmit` | src/i3_fe_core/discrepancy/service.py:467-484 | any HTTP answer records the time under report type, problem service and problem; only a 201 puts the report on record, with the response if it names a responder and contact, and without a resolution |
| `Discrepancy.DiscrepancyReporting.ReceiveResolution` | src/i3_fe_core/discrepancy/service.py:502-535 | exactly when each status is given: 454 for an unreadable body, else 472 for an unauthorised one, else 473 unless the report is on record and the agency is this one, else 201 with the latest resolution stored and nothing else changed |
| `SubmitRate.SuppressedExactly` | src/i3_fe_core/discrepancy/service.py:411-467 | over every run of non-overlapping calls with a monotone clock: suppressed iff unforced and some earlier call, forced or not, with the same report type, problem service and problem, got an HTTP response and started less than the interval before; transport failures and other reports never matter |
| `Discrepancy.SimilarIff` | src/i3_fe_core/discrepancy/service.py:411-416 | two reports have the same similarity key iff report type, problem service and the type-specific problem, null when absent, are equal |
| `Discrepancy.ResponseBodyAt` | src/i3_fe_core/discrepancy/service.py:251-256 | the response to a report names this agency, its contact and agent and the estimated return time, each under its own key |
| `Discrepancy.StripSlashesCuts` | src/i3_fe_core/discrepancy/service.py:448-448 | the URL is the URI without the slashes at its end, and nothing else is cut |
| `SubmitRate.LastSendIsLatest` | src/i3_fe_core/discrepancy/service.py:467-467 | the time recorded for a key is that of the latest answered call similar to it |
| `DrModels.FillDict` | src/i3_fe_core/discrepancy/models.py:175-198 | the two loops give the closed form of the JSON object, or ValueError exactly when the report is not stamped or a type-specific key hides a prolog field that is set |
| `DrModels.ReportRoundTrip` | src/i3_fe_core/discrepancy/models.py:175-233 | for a report that to_dict serialises: from_dict gives it back iff its mandatory fields are set and its type-specific keys avoid all ten prolog keys, unset ones included |
| `DrModels.ClaimedKeyComesBackAsField` | src/i3_fe_core/discrepancy/models.py:186-197 | a concrete report that serialises and does not read back: problemService unset, and a type-specific parameter of that name |
| `DrModels.WireRoundTrip` | src/i3_fe_core/discrepancy/models.py:200-233 | for every object from_dict accepts, to_dict succeeds and gives it back without exactly the null-valued optional prolog keys |
| `DrModels.FromDictReads` | src/i3_fe_core/discrepancy/models.py:207-233 | accepted iff the mandatory fields are there and not null and the tokens and the timestamp are valid |
| `DrModels.AcceptedReports` | src/i3_fe_core/discrepancy/models.py:200-233 | the same with the ten JSON names and the severities written out: which objects are accepted, and which member becomes which attribute |
| `DrModels.SerialisedSays` | src/i3_fe_core/discrepancy/models.py:175-198 | to_dict puts every attribute that is set under its own JSON name, beside all type-specific parameters |
| `DrModels.ResolutionRoundTrip` | src/i3_fe_core/discrepancy/models.py:316-348 | a resolution reads back as itself, or, with a mandatory field unset, not at all |
| `DrModels.ResolutionWireRoundTrip` | src/i3_fe_core/discrepancy/models.py:316-348 | an accepted object serialises to its known non-null keys; unknown keys are dropped |
| `DrModels.AcceptedResolutions` | src/i3_fe_core/discrepancy/models.py:323-348 | an object is read as a resolution iff its seven mandatory members, by name, are there and not null |
| `CacheLoads.InterleavedLoadsKeepFilesFresh` | src/i3_fe_core/gis/cache.py:43-84 | any number of load() calls, interleaved operation by operation with each other and with source writes, whatever fails: if no older hit is restored between another load's populate and its serialise, every whole file holds a payload serialised from a version no older than the mtime it is filed under, and so does everything a load is about to file or restore |
| `CacheLoads.SerialisesFreshIff` | src/i3_fe_core/gis/cache.py:74-74 | the converse at the step that would file it: what a populated load serialises is fresh iff the dataset still holds a version no older than its stat |
| `CacheLoads.RestoreHarmsIff` | src/i3_fe_core/gis/cache.py:55-55 | a restore under a populated load does harm exactly when no version since that load's stat has the data it restores |
| `CacheLoads.InterleavedHitsAreExact` | src/i3_fe_core/gis/cache.py:53-57 | in such runs, if no entry of another version is published under the mtime that another load has just seen, every hit populates exactly what rebuilding from the version it saw would |
| `CacheLoads.StaysExactIff` | src/i3_fe_core/gis/cache.py:78-78 | the exact condition at the step: the loads that have read the mtime go on to exact hits or misses iff the step does not publish, under the mtime one of them has just seen, an entry of another version |
| `CacheLoads.HitsExactlyIff` | src/i3_fe_core/gis/cache.py:53-55 | the exact condition at the read: a load that hits holds the version it saw iff the cache file, under that mtime, does |
| `CacheLoads.RacingHitIsInexact` | src/i3_fe_core/gis/cache.py:51-60 | a run of two loads on a cold cache, from a world in order and without a harmful restore, in which a load that saw version 1 hits and populates version 2 |
| `CacheLoads.CacheIsNeverAhead` | src/i3_fe_core/gis/cache.py:43-84 | corollary for load() calls that follow one another, with any source writes and failures: the cache file is never older than the mtime it is filed under |
| `CacheLoads.HitAgreesWithSource` | src/i3_fe_core/gis/cache.py:53-57 | corollary for such calls: a hit populates exactly what rebuilding from the version with the observed mtime would |
| `CacheLoads.OverlapFilesStaleVersion` | src/i3_fe_core/gis/cache.py:72-84 | the condition is needed: a run of two overlapping loads, from a world in order, that files version 1 under mtime 2, after which loads restore version 1 |
| `Cache.LoadIsFresh` | src/i3_fe_core/gis/cache.py:51-60 | a load that returns leaves a version no older than its stat and no newer than the source at its populate; one that raises leaves the dataset alone or does the same; the files stay fresh either way |
| `Cache.LoadReturnsIff` | src/i3_fe_core/gis/cache.py:43-84 | the exact condition in how the operations go: a load returns iff its stat, its populate and, unless it hits, its serialise work, and nothing but OSError is raised by each other operation that is reached (for the read also ValueError) |
| `Cache.LoadLeaves` | src/i3_fe_core/gis/cache.py:51-84 | what a load leaves: the dataset restored on a hit, rebuilt on a miss, untouched when it does not populate; the cache file rewritten, under the mtime seen and with what was built, exactly when it missed and every later operation worked |
| `Cache.OsErrorsAreSwallowed` | src/i3_fe_core/gis/cache.py:66-84 | an OSError at the read, the open, the dump, the rename or the removal never makes a load raise: it returns with the dataset populated |
| `Cache.UnwritablePayloadRaises` | src/i3_fe_core/gis/cache.py:72-79 | a concrete load that populates and then raises: a payload that the JSON writer does not take |
| `Cache.WriteIsAllOrNothing` | src/i3_fe_core/gis/cache.py:72-84 | the cache file becomes the whole new entry, which reads back under its mtime, exactly when opening, writing and renaming the temporary file all work, and is otherwise what it was; the temporary file is gone on return unless removing it failed |
| `Cache.WatchInvariant` | src/i3_fe_core/gis/cache.py:108-128 | at every loop head the dataset is at least as new as last_mtime, whatever failed or was rewritten before |
| `Cache.TurnCatchesUp` | src/i3_fe_core/gis/cache.py:108-122 | a turn that reads the mtime and sees no write while it lasts, and whose load, if it makes one, meets the condition of Cache.LoadReturnsIff, is a successful one and leaves the dataset equal to the source |
| `Cache.TurnCatchesUpDespiteOsErrors` | src/i3_fe_core/gis/cache.py:79-119 | in particular whatever OSErrors there are at the read and in the write: the dataset then equals the source and last_mtime has caught up |
| `Cache.ReloadsExactly` | src/i3_fe_core/gis/cache.py:106-118 | over every sequence of turns: a turn loads iff it reads an mtime above that of the last turn that reloaded, or above the first mtime if none did |
| `Cache.FailedLoadIsRetried` | src/i3_fe_core/gis/cache.py:115-126 | after a failed load every later turn that can read the mtime loads again until one succeeds, even if the source has not changed since |
| `WatchOverlap.WatchKeepsUp` | src/i3_fe_core/gis/cache.py:97-128 | with any number of other load() calls interleaved with the watch loop: if no hit on an mtime below last_mtime, or below the one being reloaded once its load has populated, is restored, the dataset is at least as new as last_mtime all the time |
| `WatchOverlap.RestoreKeepsUpIff` | src/i3_fe_core/gis/cache.py:55-55 | a restore leaves the dataset at that bar iff some version since the bar has the data it restores |
| `Cache.DatasetCache.constructor` | src/i3_fe_core/gis/cache.py:27-32 | a cache over whatever files there are, not reloading |
| `Cache.DatasetCache.ReadCache` | src/i3_fe_core/gis/cache.py:62-70 | whatever mtime the result is compared with, what follows is a hit on the entry on disk, a miss (missing, unreadable or torn file), or an exception that is neither OSError nor ValueError |
| `Cache.DatasetCache.WriteCache` | src/i3_fe_core/gis/cache.py:72-84 | serialising, the temporary file, its renaming and its clean-up leave the files that the operations of the machine leave, for every way each of them can go; it returns iff serialising works and nothing but OSError is raised in the write |
| `Cache.DatasetCache.Load` | src/i3_fe_core/gis/cache.py:43-60 | the straight-line code makes exactly the operations of one load, for every way each of them can go, and returns exactly under the condition of Cache.LoadReturnsIff |
| `Cache.DatasetCache.Watch` | src/i3_fe_core/gis/cache.py:86-128 | every turn of the loop is a turn of the watch state machine, and the reloading flag is down at every loop head |
| `ChainWalk.ChainIsAnchored` | src/i3_fe_core/logging/jws_signer.py:263-297 | the loop with its bound equals the unbounded greedy walk: True for a leaf that is itself trusted, only with a path of issuance links to, or onto, a trusted certificate, and always with one when issuers are unique |
| `ChainWalk.IsAnchored` | src/i3_fe_core/security/peer_auth.py:197-224 | the same for the loop with the other bound |
| `ChainWalk.SameAnswer` | src/i3_fe_core/security/peer_auth.py:197-224 | both implementations give the same answer on all inputs |
| `ChainWalk.WalkIsSound` | src/i3_fe_core/logging/jws_signer.py:276-297 | a True answer comes with a path of issuance links through supplied certificates to, or onto, an anchor |
| `ChainWalk.EveryOrderIffNoDeadEnd` | src/i3_fe_core/logging/jws_signer.py:272-297 | the exact condition of completeness: the walk answers True in whatever order the certificates are supplied iff no chain of issuance links from the leaf, through different supplied certificates none of which is at an anchor, ends at one that nothing left in the list has issued |
| `ChainWalk.SomeOrderIffPath` | src/i3_fe_core/security/peer_auth.py:201-224 | for some order of the supplied certificates it answers True iff a path to an anchor exists |
| `ChainWalk.WalkMeansPath` | src/i3_fe_core/logging/jws_signer.py:266-271 | True only if a path exists; True iff it exists when each certificate has at most one distinct issuer among those supplied, because there is no dead end then |
| `ChainWalk.PinnedLeafIsAnchored` | src/i3_fe_core/logging/jws_signer.py:277-278 | a leaf that is itself trusted is anchored whoever issued it and whatever else is supplied, in every order |
| `ChainWalk.GreedyMissesCrossCertificate` | src/i3_fe_core/logging/jws_signer.py:285-296 | a concrete cross-certified leaf with a path and a dead end, on which the walk answers False |
| `Base64.DecodeEncode` | src/i3_fe_core/logging/jws_signer.py:410-410 | decoding inverts encoding for every byte string, in both alphabets, with the lenient reader |
| `Base64.UrlRoundTrip` | src/i3_fe_core/logging/jws_signer.py:72-78 | stripping the padding and putting it back loses nothing at every length modulo three; the text has only URL-safe characters |
| `Base64.UrlEncodeInjective` | src/i3_fe_core/logging/jws_signer.py:72-73 | different byte strings have different texts |
| `Base64.Alphabets` | src/i3_fe_core/logging/jws_signer.py:72-78 | the digits of the two alphabets of RFC 4648 in the order of their values |
| `Base64.SextetsKeepBits` | src/i3_fe_core/logging/jws_signer.py:72-73 | each group of digits has the bits of its bytes, from the left, completed with zero bits |
| `Base64.EncodedLength` | src/i3_fe_core/logging/jws_signer.py:72-73 | with padding four digits for every three bytes begun; without it no more digits than the bits need |
| `Base64.ForeignIsSkipped` | src/i3_fe_core/logging/jws_signer.py:76-78 | the lenient reader passes over characters that are neither digits nor padding, anywhere in the text |
| `Jws.SignedVerifies` | src/i3_fe_core/logging/jws_signer.py:196-250 | verify_jws(sign(p)) returns p and no report, in both delivery modes and under either policy, when the leaf is valid now and the supplied trust fits |
| `Jws.SignerIsFound` | src/i3_fe_core/logging/jws_signer.py:398-478 | the signer's own leaf is what the verifier takes the key from iff the supplied trust fits: no anchors or an anchored chain by value, the leaf itself first by reference |
| `Jws.HeaderSays` | src/i3_fe_core/logging/jws_signer.py:236-250 | the protected header is the algorithm with the DER of the whole chain in standard base64, or with the URL and the SHA-256 thumbprint of the leaf, and nothing else |
| `Jws.VerdictIs` | src/i3_fe_core/logging/jws_signer.py:342-497 | for every object whose two signed fields decode, both directions: accepted iff nothing is critical and either the algorithm is none and policy allows it, or it is EdDSA, a certificate valid now is sent by value and anchored if anchors are given, or is the caller's first one with its SHA-256 thumbprint in the header, and the signature over the two texts received verifies with its key; each of the eight problems is reported iff its own condition on header, trust and signature holds; the payload is the decoded one either way |
| `Jws.UnreadableIsReported` | src/i3_fe_core/logging/jws_signer.py:342-378 | anything else (no JSON object, or a field that does not decode to one) is OtherLogSignature with an empty payload |
| `Jws.AcceptedMeansSigned` | src/i3_fe_core/logging/jws_signer.py:342-497 | the consequence of acceptance for trust, with the walk replaced by what its True answer means: the signature over the two texts received verifies under a certificate valid now which is the first one in x5c, with a path through the other ones to an anchor if anchors were given, or is the caller's own first certificate with its thumbprint in the header; unsigned objects pass only where policy allows (the converse is in Jws.VerdictIs) |
| `Json.FalsyValues` | src/i3_fe_core/logging/jws_signer.py:403-403 | the JSON values that count as no certificates: null, false, zero, and the empty string, array and object |
| `Jws.RaisesExactly` | src/i3_fe_core/logging/jws_signer.py:440-465 | verify_jws raises instead of reporting iff both fields decode, nothing is critical, the algorithm is EdDSA, the certificate is sent by reference to a caller who has one, and the thumbprint is a string outside ASCII |
| `Jws.ForeignThumbprintRaises` | src/i3_fe_core/logging/jws_signer.py:457-460 | a concrete object on which it raises |
| `NtpHealth.HealthLoop` | src/i3_fe_core/app/lifecycle.py:197-227 | for every check history, debounce and mode: owns the disruption, and writes at each check, exactly as the closed form says |
| `NtpHealth.RecoveryIsEarned` | src/i3_fe_core/app/lifecycle.py:217-227 | Normal is written only with auto-recover on and at exactly the check that completes the debounced run of healthy checks after an unhealthy one |
| `NtpHealth.AnyStateIsTakenOver` | src/i3_fe_core/app/lifecycle.py:210-227 | whatever the state was, a disruption set by others included: it stays exactly while every check is healthy; from the first unhealthy one on it is ServiceDisruption with the reason of the loop, until the loop may recover and the debounced number of healthy checks have followed the last unhealthy one; then it is Normal without a reason |
| `NtpHealth.ForeignDisruptionIsCleared` | src/i3_fe_core/app/lifecycle.py:194-227 | a concrete history in which a disruption set by others is cleared |
| `Timestamps.ParseFormat` | src/i3_fe_core/time/timestamps.py:56-85 | parsing a formatted time gives back every field, the offset cut to whole minutes, and the text matches the report grammar |
| `Timestamps.SameInstantIffWholeMinutes` | src/i3_fe_core/time/timestamps.py:56-85 | for years 1000 to 9999 the round trip keeps the instant to the microsecond iff the local offset is a whole number of minutes, of either sign |
| `Timestamps.GrammarNeedsFourDigitYear` | src/i3_fe_core/discrepancy/models.py:91-93 | the grammar accepts exactly the timestamps of years with four digits |
| `Timestamps.OddOffsetMovesInstant` | src/i3_fe_core/time/timestamps.py:69-76 | a concrete local time, 4:56:02 behind UTC, that comes back as another instant |
| `Timestamps.ShortYearIsRefused` | src/i3_fe_core/discrepancy/models.py:91-93 | a concrete time in the year 999 whose text the grammar refuses |
| `Timestamps.StripThenFill` | src/i3_fe_core/time/timestamps.py:62-64 | stripping trailing zeros and filling up again keeps the number |
| `Timestamps.OffsetReads` | src/i3_fe_core/time/timestamps.py:67-76 | sign, hours and minutes of the offset read back as the offset in whole minutes, cut towards zero |
| `Timestamps.OffsetSigns` | src/i3_fe_core/time/timestamps.py:69-76 | the sign is a minus west of Greenwich, both ways |
| `Timestamps.ZuluIsZeroOffset` | src/i3_fe_core/time/timestamps.py:79-85 | a final Z reads as +00:00 |
| `Timestamps.FinerIsCut` | src/i3_fe_core/time/timestamps.py:79-85 | digits beyond microseconds are cut, not rounded |
| `Timestamps.Rfc3339Example` | src/i3_fe_core/time/timestamps.py:56-85 | the example of section 5.8 of RFC 3339 formats and parses as it should, and its UTC form is the same instant |
| `Timestamps.ReadsWhatMatches` | src/i3_fe_core/discrepancy/models.py:91-93 | with a numeric offset, what parse_i3 reads is what the report grammar accepts, as far as there is such a date, time and offset |
| `Timestamps.DaysFollow` | src/i3_fe_core/time/timestamps.py:79-85 | the calendar behind the instants has no gap: each month, leap years included, is followed by the first day of the next |

## Left out

Of the pipeline:

- `SipNotifier.start` and `stop`, the leader gate, and anything after `stop`, which leaves cancelled handles in place.
- The fallback without a running event loop, in which nothing can be deferred.
- Callbacks other than the SIP notifier's, callbacks that call back into a notifier, and failures of `send_notify` (the attempt is what counts).
- Logging, log events and the subscription_id made for them; MIME types, which follow from the package; the filter body.
- Several workers sharing a store, and other writers of the stores after startup.
- LazyPruning.PruningIsInvisible: speaks of each Call-ID on its own, because the order between different Call-IDs does change with pruning; and only of runs without a 503, because a late pruned entry still counts towards the capacity.

Of Discrepancy Reporting:

- HTTP itself, the error texts of a 454, estimates as points in time, and the log events.
- Aliasing: a report object submitted twice is stamped in place, and `received_reports`, `submitted_reports` and `restore_report` share live objects; the model keeps values.
- Python's equality of `true` and `1` as keys; in the model they differ.
- The fields of DiscrepancyReportResponse and StatusUpdate beyond the objects that are sent, and the second spelling of the jCard key that StatusUpdate reads.
- SubmitRate.SuppressedExactly: is about calls that do not overlap; of two overlapping calls both can go out, since the test and the recording are separated by an await.
- DrNetwork.SubmissionAgreement: is about components that do not restart, since reports are kept in memory only.

Of the rest:

- CacheLoads.HitAgreesWithSource: is about loads that follow one another; for loads that overlap, `CacheLoads.InterleavedHitsAreExact` has its conditions. Other processes writing the same files, and cache files with foreign contents, are not modelled.
- CacheLoads.InterleavedLoadsKeepFilesFresh: a file that two loads write at the same time ends as one of the two whole entries or as torn text, not as a mixture that parses.
- Cache.WatchInvariant: is about a watch loop whose loads are the only ones; with other loads beside it, `WatchOverlap.WatchKeepsUp` has its condition. It starts from a dataset equal to the source; source writes between the first load and the start of the watch, datasets that populate halfway, callbacks that raise, and data that depend on the time passed to populate are not modelled. A populate reads the source at one moment.
- Timestamps.ParseFormat: reads the numeric-offset and Z forms of RFC 3339; the other forms that `datetime.fromisoformat` takes and digits outside ASCII are not modelled.
- NtpHealth.HealthLoop: takes the outcome of each check as given; the NTP client and the sleep between checks are not modelled.
- Cipher suites, TLS, certificate parsing, SAN extraction and PEM header handling around the chain walk; the texts in the log-signature discrepancy reports.
- Settings and FQDN validation, the application factory, metrics, the versions endpoint, log-event key conversion, and the conformance helpers, which would only add easy members.
