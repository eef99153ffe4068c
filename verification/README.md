# Verified model of the Meta Pulse community protocols

Meta Pulse connects a community forum with a reward service. The two sides, the browser and
the database do not share transactions, so most of what matters about the code is what holds
over a whole run: nobody loses a prize to a lost reply, nobody is credited twice, a binding
between two accounts cannot be moved, a wake-up is not forgotten. This project models those
protocols and proves what they promise. `dafny verify dfyconfig.toml` checks everything.

Each protocol is a machine: `Enabled` says which events may happen, `Step` what they do,
`Legal` and `After` run a sequence of them, and an invariant is proved for every legal run.
Where the source is imperative a class does the same work with the source's fields and
branches, and every method is proved against the machine's functions.

- **Drawing.** `DrawProtocol` is one browser tab, one unreliable network and the server, with a
  crash, a reload, a lost message or a late answer between any two client steps. `DrawInvariant`
  has the inductive invariant, `DrawTheorems` what follows for every run, `DrawProgress` the exact
  condition under which a saved draw can still be finished, `DrawStore` the stored request, and
  `DrawSession` the client code itself: each of its effects is one protocol event, so all its
  runs are legal runs. `DrawErrors` says what error each reply is, and `DrawSession` that a draw
  fails for no other reason. `ActionService` is the server's `Execute`, `ActionTheorems` what it
  guarantees over runs, `ActionAnswers` what each call answers, and `DrawServer` puts it in the place of the server the protocol assumes.
- **Delivery.** `DeliveryQueue` is the coalescing wake-up queue with two workers,
  `ExperienceOutbox` the award-then-acknowledge consumer, `TicketBatch` the receipt loop.
- **Identity.** `CommunityId` relates the two tests for a canonical identifier, `BindingGuard` the
  migration interleaved with arbitrary writers, `CommunityIdentity` the migration as code and the
  lookup that relies on it, `GuardAnswers` what each statement accepts; `SwitchTickets` is the
  one-time administrator tickets, `SwitchAnswers` which requests succeed.
- **Bounds.** `ImageLimiter`, and `ContentCache` with `CacheAnswers`.
- **Data.** `ChatMerge`, `UniqueJson`, `FixedPoint`, `RewardFigures`, `Retention` with
  `RetentionAnswers`, and `Timeline`; `Basics` is shared.

Besides the run theorems there are exact answers: lemmas, in numbers and fields and not in the
model's own functions, that say when an operation succeeds, when it refuses, and what it changes.

What the environment contributes is a parameter or an arbitrary choice: replies, clocks, random
identifiers, failures, the statements of other sessions.

## What the proofs turned up

- The client accepts a draw only while the server's grants for one request are pairwise
  different. If the server ever repeated one, the saved request could never be erased again, by
  any run; if it does not, a page load, one resumption and one answered POST are always enough
  (`DrawProgress.ClearableIffGrantsDiffer`).
- The server contract that drawing relies on, an action decided once and replays returning that
  decision (README.md:151), is not assumed: it is proved of the server's own transaction, and
  joint runs of client and server are runs of the protocol (`ActionTheorems.LaterCallsAgree`,
  `DrawServer.JointRunsAreProtocolRuns`).
- An empty answer to a lookup may be out of date when it arrives. Posting again is still safe,
  and nothing the client proves rests on the answer being fresh.
- The second scan of the binding guard is necessary: without it a migration can succeed over an
  invalid binding (`BindingGuard.RescanIsNeeded`).
- Polled chat batches converge whatever their order when no two different messages tie for the
  newest version, and only then (`ChatMerge.PollingConverges`, `ChatMerge.TiesDiverge`).
- A returned switch ticket is still consumable: the return mark is not a revocation
  (`SwitchTickets.ReturnDoesNotRevoke`).
- The number 0 and numbers beyond 2^53 - 1 print as texts that do not read back
  (`FixedPoint.FixedOfFormat` states exactly which numbers do).

## Model

| member | source | states |
|---|---|---|
| DrawStore.BeginReadsBack | metar-frontend/production/src/adapters.js:183-205 | a request that `begin` writes is accepted unchanged by `read` after a reload, and is the offered selections in order under the fresh identifiers |
| DrawStore.ReadIsWellFormed | metar-frontend/production/src/adapters.js:183-193 | whatever `read` accepts has one or five actions and no identifier twice |
| DrawStore.ReadExactly | metar-frontend/production/src/adapters.js:183-193 | a stored value is read if and only if it is a request: identifiers, version, selections and their agreement item by item, requests of version 2 and from before versions included |
| DrawStore.NewSavedExactly | metar-frontend/production/src/adapters.js:197-203 | a new request is made exactly for one or five draws of an offer of version 3 with selections of 1 to 1024 characters; otherwise the error says which |
| DrawStore.PulseOperation.Begin | metar-frontend/production/src/adapters.js:194-205 | a saved request is returned and never overwritten, an unreadable slot is an error that leaves it alone, and a new request is stored before it is returned |
| DrawStore.PulseOperation.Clear | metar-frontend/production/src/adapters.js:206-209 | the slot is empty afterwards, or unchanged when storage fails |
| DrawInvariant.StepInv | metar-frontend/production/src/adapters.js:221-278 | every step of client, network, server and crash, late lookup answers included, keeps the invariant that ties the tab's memory to the server's decisions |
| DrawTheorems.PostedActionsAreAPrefix | metar-frontend/production/src/adapters.js:264-277 | in every reachable state the posted actions of a request form a prefix, all but the last committed, and nothing beyond them is decided |
| DrawTheorems.NoOrphanedGrant | metar-frontend/production/src/app.js:872-880 | an erased request is settled for good: all its actions confirmed in order with different grants, or the first ones so confirmed and the next refused with nothing posted later; no message on the wire can still decide any of it |
| DrawTheorems.EveryGrantIsAccountedFor | metar-frontend/production/src/app.js:617-628 | every committed action is in the saved request, or its very grant was confirmed at its place before its request was erased |
| DrawTheorems.SavedIsNeverReplaced | metar-frontend/production/src/adapters.js:194-196 | no step replaces a saved request: it stays as it is or is erased settled; decisions are never revised |
| DrawTheorems.TicketsEqualGrants | README.md:151 | with a ledger that gives new commits new grants, tickets spent = actions committed = distinct grants, over any run |
| DrawTheorems.ErasedRequestCost | metar-frontend/production/src/adapters.js:264-277 | over the whole run the tickets taken for an erased request are as many as the grants confirmed for it: all its actions if it completed, those before the refusal if it stopped |
| DrawTheorems.SavedRequestCost | metar-frontend/production/src/adapters.js:219-221 | and for the saved request as many as its posted actions, or one fewer, so never more than its actions |
| DrawTheorems.RepostNeedsEmptyLookup | metar-frontend/production/src/adapters.js:249-256 | between two POSTs of one identifier some lookup of it was answered with an empty list, and both POSTs carry the same selection |
| DrawProgress.StuckForever | metar-frontend/production/src/adapters.js:234-238 | when two actions of the saved request were committed with one grant, no run erases it |
| DrawProgress.ClearableIffGrantsDiffer | metar-frontend/production/src/app.js:838-887 | a saved request can be erased by some run if and only if its committed grants are pairwise different, and then without spending another ticket |
| DrawSession.Tab.Lookup | metar-frontend/production/src/adapters.js:225-233 | a result is the committed grant; no result means the action was not committed when the query left, though it may be by now; and the outcome is exactly what the reply calls for: one usable record, an empty list, or the error of anything else |
| DrawSession.Tab.Recover | metar-frontend/production/src/adapters.js:234-238 | posts and erases nothing; what it returns is committed, in action order and all different, and includes every action that was committed when the lookups were sent |
| DrawSession.Tab.LookFirst | metar-frontend/production/src/adapters.js:246-254 | a retry ends with the committed grant, with leave to post again when the action was not committed as the query left, or with the one error that was met |
| DrawSession.Tab.Attempt | metar-frontend/production/src/adapters.js:242-261 | one attempt: success is the committed grant and met no error, a failure is the one error met; a retryable one moves on by one attempt, a refusal code means the action is refused; at most one POST was sent |
| DrawSession.Tab.PostOnce | metar-frontend/production/src/adapters.js:255-261 | one POST of this action; a confirmed result is the committed grant, a refusal means the server refused it |
| DrawSession.Tab.Resolve | metar-frontend/production/src/adapters.js:239-263 | success after at most two uncertain outcomes; failure with an error that is not uncertain, or after exactly three that are; at most three POSTs, all of this action; a refusal code means it is refused |
| DrawSession.Tab.Run | metar-frontend/production/src/adapters.js:264-277 | success means every action committed, the grants returned in order and different, and the store cleared; failure leaves the saved request alone and means that an action was given up, a grant came twice, or the store failed |
| DrawSession.Tab.Open | metar-frontend/production/src/app.js:838-859 | a new request is the offered one, saved before anything is posted; a resumption starts from the saved one with every action that was committed when it looked; it fails exactly for disabled buttons, an error of `begin`, nothing saved, or a failed recovery |
| DrawSession.Tab.Begin | metar-frontend/production/src/adapters.js:194-205 | inside the session: a saved request is returned and nothing changes; a good offer and a writable store give a new saved request; otherwise the error, and nothing changes |
| DrawSession.Tab.Close | metar-frontend/production/src/app.js:872-882 | a refusal erases the request, recording where it stopped, unless the user has gone or the store fails; nothing else erases it |
| DrawSession.Tab.SubmitPulse | metar-frontend/production/src/app.js:838-887 | a draw erases at most the request it works on, on success or on a refusal; and it fails only because there was nothing to start, the recovery failed, an action was given up, or a grant came twice |
| DrawSession.Tab.PulsePage | metar-frontend/production/src/app.js:605-628 | rendering posts nothing; it erases the saved request if all of it was committed when it was opened, and only if all of it is committed; it fails only for a lookup, a repeated grant or the store; the draw buttons are enabled only when nothing is saved |
| DrawSession.Tab.Live | metar-frontend/production/src/app.js:838-890 | any sequence of page loads, draws, resumptions, pauses and crashes, with replies as late as they like, is a legal run of the protocol |
| DrawErrors.FilterFindsUsable | metar-frontend/production/src/adapters.js:214-233 | the filter of the code finds exactly the usable records: a grant, the action itself, an exact amount that is not negative, a kind that exists |
| ActionService.ActionService.Execute | services/pulse/internal/service/action.go:94-391 | the call is the transaction the theorems are about: identity, request key, what is on record, and only then a new draw; a failure leaves every table as it was |
| ActionAnswers.GrantedExactly | services/pulse/internal/service/action.go:228-385 | a new action is granted if and only if protocol and selection are there, the checks before and after the account pass, the account holds a ticket and a free identifier can be stored; then exactly one ticket of that source and one grant are booked |
| ActionAnswers.RefusedExactly | services/pulse/internal/service/action.go:228-311 | otherwise the first check in order that refuses is what is recorded, with nothing spent |
| ActionAnswers.BrokenExactly | services/pulse/internal/service/action.go:228-391 | and a check or a write that breaks off, and only that, leaves nothing behind |
| ActionAnswers.MisuseFails | services/pulse/internal/service/action.go:95-135 | a badly made request, or an action or key standing for other contents, fails without a trace |
| ActionAnswers.NewKeyIsAnswered | services/pulse/internal/service/action.go:183-206 | a decided action answers a new key with its recorded answer and remembers the key |
| ActionAnswers.OldGrantIsRecovered | services/pulse/internal/service/action.go:208-227 | a grant from before these rows answers a request without protocol and selection exactly when it is the only one of its action |
| ActionAnswers.OldRequestIsHonoured | services/pulse/internal/service/action.go:155-220 | one intact old request answers its key word for word exactly when it is for this action and its grant is the only one |
| ActionTheorems.CallDecides | services/pulse/internal/service/action.go:116-385 | a decided call answers what is on record and leaves grants and ledger alone, or makes exactly one draw for an action that had neither grant nor answer, from an account that holds a ticket |
| ActionTheorems.StepInv | services/pulse/internal/service/action.go:94-391 | every call, earning and settlement keeps the rows answered and in agreement with the grants, and the accounts covered |
| ActionTheorems.OneDrawPerAction | services/pulse/internal/service/action.go:117-121 | over any interleaving of replays, request keys and refusals an action costs at most one ticket and yields at most one grant, the same number of both, and none if it was decided or had a grant before |
| ActionTheorems.ReplayRepeats | services/pulse/internal/service/action.go:136-138 | a decided request gets its first answer word for word at any later time and under any conditions, and changes nothing |
| ActionTheorems.LaterCallsAgree | services/pulse/internal/service/action.go:121-206 | under any other key a decided action gets the same refusal or the same grant or an error; with other contents, or with a key used for something else, only an error |
| ActionTheorems.RefusedIsFree | services/pulse/internal/service/action_selection.go:120-155 | a refused action has cost nothing and never will |
| DrawServer.TotalCoversAccount | services/pulse/internal/service/action.go:267-273 | with no account overdrawn a user's tickets cover any one account |
| DrawServer.CallIsDelivery | services/pulse/internal/service/action.go:94-391 | a decided call for a message on the wire is the protocol's delivery of it: a commit takes a ticket that is there and gives a grant never given before, a replay changes nothing, the answer is honest |
| DrawServer.JointRunsAreProtocolRuns | README.md:151 | every run of client and server together is a legal run of the protocol, and tickets spent, actions committed and distinct grants are the same number |
| DeliveryQueue.PulseExperienceDelivery.Enqueue | services/forum-plugin/user-center-pulse/growth_pulse_delivery.go:30-50 | a pending user is flagged, a new one joins the end of the queue and starts a worker when fewer than two live, a 65th is turned away without a trace |
| DeliveryQueue.PulseExperienceDelivery.TakeNext | services/forum-plugin/user-center-pulse/growth_pulse_delivery.go:54-63 | the first user is taken and its flag cleared, or the worker leaves |
| DeliveryQueue.PulseExperienceDelivery.Finish | services/forum-plugin/user-center-pulse/growth_pulse_delivery.go:81-89 | a flagged user goes to the end of the queue, another one leaves |
| DeliveryQueue.PulseExperienceDelivery.Run | services/forum-plugin/user-center-pulse/growth_pulse_delivery.go:52-91 | undisturbed, one worker serves the whole queue once, in order, each user by one job, and leaves nothing behind |
| DeliveryQueue.PulseExperienceDelivery.Deliver | services/forum-plugin/user-center-pulse/growth_pulse_delivery.go:65-79 | a job ends with its first success or after exactly three failures |
| DeliveryQueue.WakeUpIsAccepted | services/forum-plugin/user-center-pulse/growth_pulse_delivery.go:30-50 | only a 65th user is turned away; a pending one is flagged, any other joins the end and starts a worker unless two live; either way the wake-up is owed from then on |
| DeliveryQueue.TwoWorkersRun | services/forum-plugin/user-center-pulse/growth_pulse_delivery.go:46-49 | two users wake two workers |
| DeliveryQueue.JobStarts | services/forum-plugin/user-center-pulse/growth_pulse_delivery.go:54-63 | a worker takes the first user and lowers its flag, or leaves an empty queue |
| DeliveryQueue.JobEnds | services/forum-plugin/user-center-pulse/growth_pulse_delivery.go:81-89 | a job woken while it ran goes to the end of the queue, any other is done |
| DeliveryQueue.Bounds | services/forum-plugin/user-center-pulse/growth_pulse_delivery.go:30-59 | at most 64 users pending, at most two workers, and one at least while anyone is queued |
| DeliveryQueue.ReachableInv | services/forum-plugin/user-center-pulse/growth_pulse_delivery.go:30-91 | in every reachable state pending is the disjoint union of queued and running users, nobody twice; at most 64 pending, workers = live workers, at most two; a non-empty queue has a live worker; what is owed is exactly what is queued or flagged |
| DeliveryQueue.QuiescentMeansServed | services/forum-plugin/user-center-pulse/growth_pulse_delivery.go:81-87 | no lost wake-up: when no worker is left nothing is owed, queued or pending |
| DeliveryQueue.FirstInFirstOut | services/forum-plugin/user-center-pulse/growth_pulse_delivery.go:60-61 | users queued now start in their order before anyone queued later |
| DeliveryQueue.WaitsBehindAtMost63 | services/forum-plugin/user-center-pulse/growth_pulse_delivery.go:40-45 | the user at index k starts after exactly k other starts, and k is at most 63 |
| DeliveryQueue.Drains | services/forum-plugin/user-center-pulse/growth_pulse_delivery.go:52-91 | without new wake-ups every schedule is shorter than an explicit measure |
| DeliveryQueue.JobsNeverExceedWakeups | services/forum-plugin/user-center-pulse/growth_pulse_delivery.go:36-38 | jobs started for a user plus its outstanding wake-up never exceed the wake-ups accepted for it |
| CommunityId.GuardAcceptsExactlyCanonical | services/forum-plugin/user-center-pulse/binding_guard.go:395-406 | the trigger's digit pattern, length and text comparison accept exactly the strings that parse as a positive 64-bit number and print back identically |
| CommunityId.TextOrderIsNumberOrder | services/forum-plugin/user-center-pulse/binding_guard.go:402 | digit strings of equal length compare as text as their numbers do |
| CommunityId.FormatOfVal | services/forum-plugin/user-center-pulse/community_identity.go:57-60 | a digit string without a leading zero prints back from its number |
| BindingGuard.EnsureProtects | services/forum-plugin/user-center-pulse/binding_guard.go:82-138 | when the migration returns nil, whatever others did between any two of its statements, all bindings are valid and one to one and every constraint is in force |
| BindingGuard.BindingsOnlyGrow | services/forum-plugin/user-center-pulse/binding_guard.go:395-427 | from then on no sequence of admitted statements removes, transfers or re-dates a binding |
| BindingGuard.RescanIsNeeded | services/forum-plugin/user-center-pulse/binding_guard.go:131-136 | without the second scan some run ends in success over an invalid binding |
| GuardAnswers.ChecksExactly | services/forum-plugin/user-center-pulse/binding_guard.go:158-191 | the scans and inspections pass exactly on sound rows, distinct externals, distinct users and seven expected objects, and change nothing |
| GuardAnswers.TriggersExactly | services/forum-plugin/user-center-pulse/binding_guard.go:284-304 | a trigger is created when missing, left when as expected, refused when another |
| GuardAnswers.ColumnsExactly | services/forum-plugin/user-center-pulse/binding_guard.go:193-282 | so are columns and indexes, and only over rows that do not repeat a value |
| GuardAnswers.UnexpectedIsRefused | services/forum-plugin/user-center-pulse/binding_guard.go:210-303 | an object of another definition is never replaced, and the migration never succeeds over it |
| GuardAnswers.QuietMigrationSucceeds | services/forum-plugin/user-center-pulse/binding_guard.go:82-138 | left alone, over sound rows and no other definitions, the migration goes through, changes no row and leaves the table guarded |
| GuardAnswers.AdmittedExactly | services/forum-plugin/user-center-pulse/binding_guard.go:395-427 | a guarded table takes exactly the new rows that are no binding or a sound and new one, exactly the changes that touch no binding, and gives up exactly the rows that are none |
| CommunityIdentity.MySqlBindingGuard.Ensure | services/forum-plugin/user-center-pulse/binding_guard.go:104-137 | success of the code, others writing in between, leaves the database guarded; failure means the statement whose turn it was failed on the database as it was |
| CommunityIdentity.MySqlBindingGuard.RejectUnsafeExistingBindings | services/forum-plugin/user-center-pulse/binding_guard.go:172-191 | nil means all three scans passed, each over the rows of its own moment; an error means the scan whose turn it was failed |
| CommunityIdentity.MySqlBindingGuard.Install | services/forum-plugin/user-center-pulse/binding_guard.go:110-130 | nil means all seven schema statements took effect, others writing in between; an error means the one whose turn it was failed |
| CommunityIdentity.BrokenExitsAreUnreachable | services/forum-plugin/user-center-pulse/community_identity.go:91-105 | under the guard the ambiguous and invalid exits cannot happen |
| CommunityIdentity.LookupIsTheBinding | services/forum-plugin/user-center-pulse/community_identity.go:68-107 | a binding is answered exactly when the caller is canonical, active and bound to it |
| CommunityIdentity.OtherAnswers | services/forum-plugin/user-center-pulse/community_identity.go:68-103 | the other answers, each exactly when it applies: no account number, no active account, no binding |
| CommunityIdentity.NoSharedIdentity | services/forum-plugin/user-center-pulse/community_identity.go:66-68 | two accounts never resolve to one external identity |
| CommunityIdentity.IdentityIsImmutable | services/forum-plugin/user-center-pulse/community_identity.go:66-68 | an identity once resolved stays the same after any admitted statements while the account is active |
| SwitchTickets.AdminSwitch.SwitchAccount | services/forum-plugin/user-center-pulse/admin_switch.go:85-112 | accepts exactly active sole-role administrators, or active accounts with at most one ordinary role |
| SwitchTickets.AdminSwitch.IssueSwitch | services/forum-plugin/user-center-pulse/admin_switch.go:113-168 | a ticket goes to a target if and only if the request may issue for it, and a denial changes nothing |
| SwitchTickets.AdminSwitch.ConsumeSwitch | services/forum-plugin/user-center-pulse/admin_switch.go:169-236 | succeeds exactly when the conditions hold, marks the ticket and adds the alias only when missing; a denial changes nothing |
| SwitchTickets.AdminSwitch.ReturnSwitch | services/forum-plugin/user-center-pulse/admin_switch.go:310-323 | the return mark is set once, by the issuing actor and session |
| SwitchAnswers.IssuedExactly | services/forum-plugin/user-center-pulse/admin_switch.go:113-168 | issued if and only if the actor is an administrator with session and account number, the target is the only account of the name asked for, ordinary and another, fewer than ten tickets are younger than a minute, and the ticket is new; it is good for 60 seconds |
| SwitchAnswers.ConsumedExactly | services/forum-plugin/user-center-pulse/admin_switch.go:169-236 | consumed if and only if on record, unused, in time, in its session, with actor, target and alias still fit; it is then marked and the alias added only when missing |
| SwitchAnswers.ReturnedExactly | services/forum-plugin/user-center-pulse/admin_switch.go:310 | the return mark is set by the issuing actor in the issuing session, the first time only |
| SwitchAnswers.AtMostTenPerMinute | services/forum-plugin/user-center-pulse/admin_switch.go:153-160 | at most ten tickets of one actor lie in any minute of any run |
| SwitchAnswers.ConsumedByRequest | services/forum-plugin/user-center-pulse/admin_switch.go:129-193 | a consumption goes back to a request less than 60 seconds earlier, in its session, that named the target's account and no other, by one who was and still is an administrator |
| SwitchTickets.QuotaHolds | services/forum-plugin/user-center-pulse/admin_switch.go:153-160 | at most ten tickets per actor in any minute, whatever order the clock readings arrive in |
| SwitchTickets.ConsumptionIsAuthorized | services/forum-plugin/user-center-pulse/admin_switch.go:181-193 | a consumption goes back to one issue by the same session less than 60 seconds earlier, with actor and target eligible and different at both times |
| SwitchTickets.ConsumedAtMostOnce | services/forum-plugin/user-center-pulse/admin_switch.go:182-184 | a ticket is consumed at most once in any run |
| SwitchTickets.ReturnDoesNotRevoke | services/forum-plugin/user-center-pulse/admin_switch.go:310 | returning a ticket does not change what it allows |
| SwitchTickets.OneAliasPerUser | services/forum-plugin/user-center-pulse/admin_switch.go:194-227 | in every run one alias never names two users and no user has two alias rows |
| SwitchTickets.ConsumptionLeavesOneAlias | services/forum-plugin/user-center-pulse/admin_switch.go:222-227 | after a consumption the target has exactly one alias row |
| ImageLimiter.ImageLimiter.Sweep | services/forum-plugin/user-center-pulse/image_import.go:50-54 | exactly the idle records a minute old are forgotten |
| ImageLimiter.ImageLimiter.Acquire | services/forum-plugin/user-center-pulse/image_import.go:44-70 | grants exactly under the four bounds, and hands out the record that is in the table |
| ImageLimiter.ImageLimiter.Release | services/forum-plugin/user-center-pulse/image_import.go:69 | frees the captured record, in the table or not |
| ImageLimiter.LimiterBounds | services/forum-plugin/user-center-pulse/image_import.go:33-70 | in every run, in whatever order the clock readings reach the lock: active = busy users = closures still held, at most 4; at most 4096 users; every closure acts on the record in the table |
| ImageLimiter.AcquiredExactly | services/forum-plugin/user-center-pulse/image_import.go:44-70 | admitted if and only if the user has a record or there is room for one, it is idle and used fewer than 60 times, and fewer than four run; records of others stay unless idle and a minute old |
| ImageLimiter.AdmissionIsLogged | services/forum-plugin/user-center-pulse/image_import.go:66-68 | the log the rate is counted on has every admission and nothing else |
| ImageLimiter.LimitsInNumbers | services/forum-plugin/user-center-pulse/image_import.go:44-70 | four active, 4096 users, 120 in 60 seconds |
| ImageLimiter.AtMost120PerMinute | services/forum-plugin/user-center-pulse/image_import.go:51-66 | when the clock readings reach the lock in order, any interval shorter than a minute admits at most 120 imports of one user |
| ExperienceOutbox.Consumer.Consume | services/forum-plugin/user-center-pulse/growth_pulse.go:30-79 | one to three pages are fetched and gone through in order, each delivery applied and then acknowledged; nil exactly when an empty or 404 answer is reached with all before it passed; otherwise the last page failed or was too long, the next delivery was improper, not awarded or not acknowledged, or three pages were passed in full |
| ExperienceOutbox.AwardExactly | services/forum-plugin/user-center-pulse/growth/store.go:368-383 | what an award accepts and does: credit, tombstone, taking back, or nothing |
| ExperienceOutbox.PulseExactly | services/pulse/internal/service/experience.go:29-180 | what Pulse lists, which acknowledgements it accepts, and what a reversal does |
| ExperienceOutbox.PendingIsDelivered | services/forum-plugin/user-center-pulse/growth_pulse.go:61-76 | a grant that stays pending is credited and settled by one listing, award and acknowledgement |
| ExperienceOutbox.CreditedAtMostOnce | services/forum-plugin/user-center-pulse/growth_pulse.go:66-76 | with any consumers stopping and restarting anywhere a grant is credited at most once, and only applied deliveries are acknowledged |
| ExperienceOutbox.DeliveredMeansAgreed | services/pulse/internal/service/experience.go:52-104 | once Pulse holds a grant as delivered, the community ledger has its amount exactly when it is settled and nothing when it is reversed |
| ExperienceOutbox.ReversalIsFinal | services/forum-plugin/user-center-pulse/growth/store.go:353-383 | after an applied reversal no stale award brings the grant back |
| TicketBatch.TicketStore.Deliver | services/forum-plugin/user-center-pulse/community_tickets.go:77-97 | one receipt is postponed first, posted when its owner is who it says, acknowledged only when Pulse confirmed it; the tickets granted grow by exactly this one if its POST took effect |
| TicketBatch.TicketStore.Batch | services/forum-plugin/user-center-pulse/community_tickets.go:55-100 | the batch is the receipts one after another up to the first local failure |
| TicketBatch.EachOnItsOwn | services/forum-plugin/user-center-pulse/community_tickets.go:77-97 | every receipt up to the first local failure gets its own outcome, every later one is as it was |
| TicketBatch.RowExactly | services/forum-plugin/user-center-pulse/community_tickets.go:77-97 | a receipt is left alone once the database failed before it or could not postpone it; otherwise it is put off by 60 seconds and delivered exactly when Pulse named its entry and that was stored |
| TicketBatch.GrantedExactly | services/forum-plugin/user-center-pulse/community_tickets.go:81-88 | the tickets of a batch are exactly those of the tried receipts that were postponed, their owner's, and posted with effect |
| TicketBatch.BatchEnds | services/forum-plugin/user-center-pulse/community_tickets.go:77-99 | other receipts are untouched, and a batch ends early exactly where the database failed |
| TicketBatch.FailureStaysLocal | services/forum-plugin/user-center-pulse/community_tickets.go:81-93 | while the local database works a receipt is acknowledged exactly when Pulse confirmed that receipt |
| ContentCache.AnswerAdapter.Content | metar-frontend/production/src/adapters.js:104-124 | a call reuses a live entry of its path, or sends one request and keeps it as the newest entry, dropping the oldest beyond 24; a change of token or language empties the cache first; other paths are never kept |
| ContentCache.AnswerAdapter.OnError | metar-frontend/production/src/adapters.js:116-119 | a failure takes out its own entry in its own epoch |
| ContentCache.PromiseIsCurrent | metar-frontend/production/src/adapters.js:104-124 | in any run a call returns a request for the same path, under the present token and language, since the last clear, not failed, and if answered then less than 15 seconds ago |
| ContentCache.BoundedSlots | metar-frontend/production/src/adapters.js:121-123 | at most 24 entries, one per path |
| ContentCache.FailureRemovesOnlyItself | metar-frontend/production/src/adapters.js:116-119 | a late failure removes its own entry if it is still there, and nothing else |
| CacheAnswers.FreshIsReused | metar-frontend/production/src/adapters.js:104-110 | a call for whose path an entry waits, or got its reply less than 15 seconds ago under this token and language, returns that entry's promise and changes nothing |
| CacheAnswers.OthersAreSent | metar-frontend/production/src/adapters.js:104-124 | any other call sends one request; a browse list is kept last in place of an older entry, after emptying on a change of token or language, the oldest of 25 going |
| CacheAnswers.AtMost24 | metar-frontend/production/src/adapters.js:123 | never more than 24 entries |
| ChatMerge.MergeMessages | metar-frontend/production/src/chat.js:26-36 | the merged list is the strictly increasing listing of the absorbed messages |
| ChatMerge.PollIsMerge | metar-frontend/production/src/chat.js:26-36 | a merge of everything so far and a batch holds, for every number among all of it, one newest message |
| ChatMerge.PollingConverges | metar-frontend/production/src/chat.js:389-396 | any two ways of splitting, ordering and repeating the same messages end in the same list when no two different ones tie for newest |
| ChatMerge.TiesDiverge | metar-frontend/production/src/chat.js:29-33 | when two different messages tie for newest, two orders of the same messages end in different lists |
| ChatMerge.View.Tick | metar-frontend/production/src/chat.js:394-398 | the view is the merge, cut to its newest 300 when long and at the bottom |
| ChatMerge.TrimmingKeepsNewest | metar-frontend/production/src/chat.js:394-398 | over any run of ticks from the empty view, trimmed whenever it is, the newest 300 numbers ever delivered are in view, each in its newest version, in order |
| UniqueJson.Decoder.Walk | services/forum-plugin/user-center-pulse/growth_routes.go:287-323 | accepts exactly the values in which every object at every depth has distinct names, and consumes exactly their tokens |
| UniqueJson.UniqueExperienceJson | services/forum-plugin/user-center-pulse/growth_routes.go:284-329 | accepts a text if and only if it is one such object and nothing else |
| UniqueJson.AdminJsonObject | services/forum-plugin/user-center-pulse/admin_bff.go:148-176 | succeeds if and only if the text is one object with distinct names and no null, and then returns exactly its members |
| UniqueJson.PrintParses | services/forum-plugin/user-center-pulse/growth_routes.go:287-323 | the grammar reads every printed value back, whatever follows it |
| UniqueJson.ParsePrints | services/forum-plugin/user-center-pulse/growth_routes.go:287-323 | and whatever it reads is the print of the value, so no text has two values |
| FixedPoint.FixedOfFormat | metar-frontend/production/src/admin-periods.js:41-65 | a printed number reads back as itself exactly when it is positive and at most 2^53 - 1 |
| FixedPoint.FormatOfFixed | metar-frontend/production/src/admin-periods.js:41-65 | printing what an accepted text denotes gives that text without idle zeros or a bare point |
| FixedPoint.SameAmount | metar-frontend/production/src/admin-periods.js:41-65 | two accepted texts denote the same amount exactly when they differ only in idle zeros |
| FixedPoint.WholeAccepted | metar-frontend/production/src/admin-periods.js:41-51 | a numeral is accepted for its whole units exactly when positive and not too large |
| FixedPoint.PointAccepted | metar-frontend/production/src/admin-periods.js:41-51 | a numeral, a point and one to `digits` digits likewise for units and parts |
| FixedPoint.NothingElseAccepted | metar-frontend/production/src/admin-periods.js:41-51 | and no other text is accepted |
| RewardFigures.RatioIsRoundedDown | metar-frontend/production/src/adapters.js:299-305 | a ratio is printed rounded down to four decimals, marked exactly when inexact, and as "<0.0001" exactly when positive and below that |
| RewardFigures.QuotaIsRoundedDown | metar-frontend/production/src/adapters.js:288-296 | a quota is printed rounded down to six decimals of a unit, marked exactly when inexact |
| RewardFigures.ProbabilityPrints | metar-frontend/production/src/adapters.js:306-311 | a share is printed as a percentage rounded down to four decimals and marked when inexact, or as "<0.0001%" exactly when positive and below that |
| RewardFigures.PulseRewardStats | metar-frontend/production/src/adapters.js:312-326 | the sums per kind, or the error of the first bad row; overflow exactly when the valid rows weigh too much |
| RewardFigures.ProbabilitiesComplement | metar-frontend/production/src/adapters.js:306-326 | of the two percentages printed for a pool either both are numbers, which add up to 100 or fall one ten-thousandth short and add up exactly when neither is marked, or one is the special text and the other is "≈99.9999%" |
| RewardFigures.RecommendedPool | metar-frontend/production/src/admin-periods.js:23-40 | whenever offered, the recommended pool is valid, half its weight is quota, and a draw is worth a quarter of a unit and 2.76 experience on average |
| RewardFigures.OfferedExactly | metar-frontend/production/src/admin-periods.js:28-40 | offered exactly for units that split in four and of which twenty-five are exact, with its prizes |
| RewardFigures.DashExactly | metar-frontend/production/src/adapters.js:299-311 | a dash is printed exactly for arguments without a ratio or a probability |
| RewardFigures.QuotaOtherwise | metar-frontend/production/src/adapters.js:288-291 | without an exact amount a notice, without a unit the bare number |
| Retention.Backups.Plan | deploy/backup-retention.py:113-140 | the plan lists, newest first, exactly the eligible backups with at least as many newer eligible ones as there are slots |
| Retention.Backups.Finish | deploy/backup-retention.py:143-157 | marks its backup and removes the plan from the newest name on, each entry being deletable at its turn, stopping at the first that is not or whose removal breaks off |
| Retention.TailIsPlan | deploy/backup-retention.py:130-137 | cutting the sorted candidates at the slots is the policy counted name by name |
| RetentionAnswers.VictimExactly | deploy/backup-retention.py:113-137 | removed if and only if a directory of a proper name, a success, unpinned, safe and not the current one, with at least N such later by name, or N - 1 once the current one is a success; none with N = 0 |
| RetentionAnswers.NameWithSpells | deploy/backup-retention.py:13 | a proper name, character by character |
| RetentionAnswers.GreaterIsLater | deploy/backup-retention.py:117 | the order of names: the first difference decides, and a prefix comes first |
| RetentionAnswers.StartsExactly | deploy/backup-retention.py:143-148 | a run starts exactly on a proper directory that says running, and marks nothing but that |
| RetentionAnswers.GoesExactly | deploy/backup-retention.py:149-156 | at its turn an entry goes exactly when it is still a success, unpinned and safe |
| Retention.QuietFinishCompletes | deploy/backup-retention.py:147-157 | undisturbed, every startable run completes and removes exactly its plan |
| Retention.OnlyVictimsGo | deploy/backup-retention.py:113-157 | however it ends, only victims of the plan disappear: never the current backup, nothing pinned, unsafe or unsuccessful when planned, nothing at all when N is 0 |
| Retention.FinishKeepsAtMost | deploy/backup-retention.py:131-137 | a completed run leaves at most N successful, unpinned, safe backups, its own included |
| Retention.NothingLeftToPlan | deploy/backup-retention.py:113-157 | a plan made right afterwards, for the same backup or as a preview, selects nothing |
| Retention.NextUpdateRemovesAtMostOne | deploy/backup-retention.py:131-137 | the next update removes at most one backup |
| Timeline.NeverRewinds | metar-frontend/production/src/pulse-core.js:39-57 | between any two moments of any run the progress does not decrease and stays within 0 and 1 |
| Timeline.NothingRevealedEarly | metar-frontend/production/src/pulse-core.js:45-56 | until a result is received progress stays at or below 0.44 and nothing is revealed |
| Timeline.ResultIsShown | metar-frontend/production/src/pulse-core.js:39-57 | once received, whatever is skipped and whenever, the result is shown from max(start + 3900, receipt + 2184) on |
| Timeline.NotBefore | metar-frontend/production/src/pulse-core.js:45-56 | and uninterrupted not before either of 3900 from the start and 2184 from the receipt |
| Timeline.WithoutResult | metar-frontend/production/src/pulse-core.js:45-56 | without a result: gathering for 1131, charging up to 1716, then waiting at 0.44 |
| Timeline.WithResult | metar-frontend/production/src/pulse-core.js:45-56 | with one: charging up to 2106, revealing up to 3900, all of it as much later as the wait for the result was |
| Timeline.AfterSkip | metar-frontend/production/src/pulse-core.js:45-56 | a skipped charge waits at 0.44 and reveals from 0.46 in 2106 |
| Timeline.WithReducedMotion | metar-frontend/production/src/pulse-core.js:44-47 | reduced motion shows a result at once |
| Timeline.Timeline.Take | metar-frontend/production/src/pulse-core.js:45-56 | the code's sample agrees with the progress and phase the run theorems are about, and animates exactly until the result |
| Timeline.Timeline.SkipCharge | metar-frontend/production/src/pulse-core.js:40-43 | the charge is shortened once, and only before the reveal |

## Left out

- The DOM, canvas drawing, templates, translations, routing and styling: nothing to prove across functions.
- HTTP clients, signatures, nonces, headers, origin checks and Gin handlers: plumbing over libraries.
- Table locks, isolation and DDL of the real database: each locked transaction or schema statement is one atomic step, and a definition is as expected, missing or other.
- Schema changes by other administrators, and NULL columns of the binding table: the columns are NOT NULL and the named lock serializes migrations.
- Text collation and the end-of-line rule of the database's regular expressions: the pattern is taken to match whole strings of characters.
- SHA-256: a constructor, so that equal digests come from equal texts.
- ParseUint and FormatUint: written out as functions on digits.
- Lexing of JSON, white space, string escapes and the decoder's nesting limit of 10000: texts are sequences of lexemes, and the standard decoder is given by its token states.
- String lengths in UTF-16 units and bytes: lengths count characters.
- Trimming of the text given to the fixed-point parser: texts are already trimmed.
- Two tabs sharing one session storage, and requests of different users: one user in one tab.
- The signed content of a selection, reward periods, prize derivation and budgets: a new draw meets arbitrary conditions, which let it through, refuse it or break it off.
- ActionService.ActionService.Execute: one user's rows; the tables are scoped by user, and a grant identifier taken by somebody else is a failing write. Digests of payloads are the payloads; trimming, the well-formedness of UTF-8 and the collation of keys are not modelled.
- DrawServer.JointRunsAreProtocolRuns: the user draws from one tab; draws of other devices, expiring tickets and administrative corrections of the ledger are not events.
- ActionTheorems.StepInv: the tables start with every recorded spend having its grant, which is what the server before these tables left.
- Exactness of the reward amount shown for a draw: grants are identified by name only.
- DrawProgress.ClearableIffGrantsDiffer: says that a finishing run exists, not that an unfair network will take it.
- DrawSession.Tab.Recover: the lookups of `Promise.all` are sent together and answered in any order, one at a time. In the protocol a late answer may be out of date by any amount, which allows more than can happen.
- DrawSession.Tab.Begin: a store whose text was tampered with is a matter of DrawStore; in the session the store holds what the session wrote.
- DrawSession.Tab.Close: a sign-out before the erasure leaves the request saved, as an interrupted draw does.
- ImageLimiter.AtMost120PerMinute: assumes that the clock readings, taken before the lock, reach it in order; ImageLimiter.LimiterBounds does not. A release closure is called once, as its one caller does.
- ExperienceOutbox.Consumer.Consume: the two ends are contracts taken from the award transaction and the acknowledgement endpoint; balances and levels derived from the ledger are not modelled.
- TicketBatch.TicketStore.Batch: collection of new receipts is one success flag.
- Retention.Backups.Finish: a failing state write and unreadable directories other than non-directories are not modelled; a tree is safe or not as a whole, and a removal that breaks off leaves an arbitrary entry.
- Timeline.NeverRewinds: reals instead of floating point; the card easing functions are not modelled.
- RewardFigures.QuotaIsRoundedDown: the Chinese wording only; the English one differs in one constant text.
- The period editor's pending state, message drafts, paging and recall in the chat view, and the marketplace, analytics and events packages: they would add easy members.
