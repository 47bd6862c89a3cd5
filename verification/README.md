# Campus Hub: a verified model of the backend's transactional core

The backend keeps activities, registrations, tickets and check-ins in one MySQL database. It announces
every change through an outbox that a relay publishes to Kafka. Consumers turn the events into
notifications, chat memberships and a search index, and a hub pushes frames to live WebSocket
connections. This project models that behaviour in Dafny and proves the properties that hold only
because the parts fit together.

Verify everything with `dafny verify dfyconfig.toml`.

## How the model is laid out

**Registration core.** `Model` has the rows. `Transactions` defines each repository transaction as a
function that commits all its effects or reports why it rolled back, and the class in `Database` performs
the same transactions statement by statement on mutable tables, with rollback. `Services` has the service
operations: what they read, decide and prepare. `Protocol` puts them together. A run is the history of
committed states, and every read of an operation may be answered by any earlier state, as long as one
operation's reads keep their order. So a step covers an operation that was in flight while any number of
others committed. `Invariants` states what every state satisfies (`Good`) and how a state relates to any
later one (`Evolves`), `Folds` and `Slots` how one written row or event moves them; `Transitions`,
`ActivityChanges` and `Redemption` prove that each transaction keeps both, `StaleReads` that an input
prepared from old reads still fits whenever its own guard passes, and `Reachable` closes the induction.
`Guarantees` and `Authority` read off what that means. `RegistrationAnswers`, `CheckInAnswers` and
`ActivityAnswers` give for each service operation, in any run, the exact answer and the exact state it
leaves, as a table over the rows it read and the rows it commits against that names every status, time and
error itself. `Scheduler` treats the periodic jobs, and `Scenario` has concrete runs.

**Outbox to notification.** `Outbox` has the claim, the backoff and the publish loop; `Relay` all runs of
many relay workers with crashes and unacknowledged messages; `Events` the envelopes consumers read;
`Notifications` adds the consumer group, subscribed to the partitions of the registration and ticket
topics, and the insert-or-ignore of a notification with its realtime hint, over the very same outbox.

**Other consumers.** `ChatMembership` has the membership consumer of one partition with restarts and
offset rewinds, `Rewinds` what replays do to the tables, and `Partitions` what handling several partitions
side by side does. `Search` has the versioned document store and the keyset scan, `LiveReindex` the online
reindex beside a live indexer.

**From the core to its consumers.** `Announcements` reads the core's outbox as the membership consumer
does and compares who becomes a member with who holds an approved registration. `Approvals` follows an
approval through the relay to its notification.

**WebSocket hub.** `Hub` has the three indexes and the bounded queues as classes, `Delivery` the
interleavings of concurrent deliveries.

Conventions: times are Unix milliseconds, ids are naturals and versions do not wrap. Kafka,
Elasticsearch and MySQL enter by contract: atomic transactions and unique keys, one publish result per
message in input order (a message may land without a result), and refusal of lower external versions.
An acknowledged message has landed; that is so for the producer_acks settings `all` and `leader`, and not
for `none`, which the configuration also accepts (backend/internal/config/config.go:282). Identifiers
are compared code point by code point; the collation of the client_request_id column also equates ids
that differ only in case or accents, and such a request is answered with the other's record.
Generated identifiers are parameters, and a collision is the duplicate-key error it would be. The
notification key, a name-based UUID (section 5.5 of RFC 9562), is modelled as the pair it hashes. The
clock, the eligibility check, the administrator role of a request and the outcome of socket writes are
parameters too; no operation of the backend writes user_roles. Users and activities are never deleted and
an activity keeps its organizer, so consumers look them up in a fixed directory. A connection enters the
hub authenticated, with its user fixed.

## Where the code gives less than one might expect

- The commit of a registration does not read the activity's status again, so it may commit after a
  cancellation (`Scenario.RegisterAfterCancellation`). `Guarantees.RegistrationCommitsIff` says exactly
  when it commits.
- Cancel reads the ticket after the registration. The opposite order would leave an unused ticket on a
  cancelled registration (`Guarantees.TicketMustBeReadAfterRegistration`).
- A review checks the status that it read, not the version. A form that another administrator sent back,
  and that was edited and submitted again in between, is published unseen. Up to two version steps the
  published form is the reviewed one (`Guarantees.ReviewedFormIsPublished`), and for every larger gap some run publishes another
  (`Scenario.AnUnseenFormIsPublished`).
- An external version of 0 is sent as 1, so within one index version 0 may replace version 1
  (`LiveReindex.ZeroReplacesOne`), and nothing else may go back (`Search.OlderReplacesNewerOnlyAtZero`).
- Search reads the alias, and the switch can set it back: the new index may lag behind the old one until
  compensation reaches the activity (`LiveReindex.TheSwitchSetsBack`). Nothing but the switch does that
  (`LiveReindex.OnlyTheSwitchSetsBack`), it does so exactly to what the build did not copy at the version
  shown (`LiveReindex.TheSwitchSetsBackIff`), and success means that it is undone
  (`LiveReindex.CompensationUndoesTheSetback`).
- Setting the membership consumer's offset back is not always harmless, because replayed records meet groups
  that later records created (`Rewinds.RewindBeforeGroupCreation`). It is harmless exactly when, for each
  group the log creates, the organizer has no leave before the creating record, or a join or leave at or
  after it (`Rewinds.RewindsAreHarmlessIff`). `Guarantees.GroupFallbackNeverFires` says that approvals
  of published activities always find their group.
- A registration that needs no approval is announced only as created, which makes nobody a member: the
  consumer's members are the users with a reviewed approval (`Announcements.MembersAreTheApproved`).
- Registration events are partitioned by registration, so a user who cancels one registration and has
  another approved may end outside the group (`Partitions.ApprovedYetOutside`). That is the only way:
  members are right in every order of handling exactly when nobody's approved registration is in another
  partition than an earlier decided one of theirs (`Announcements.MembersInAnyOrderIff`).
- A slow peer may accept a later frame before it is closed, so an open connection can briefly show a gap
  (`Delivery.AGapAppears`). It does so only if 64 frames were queued when the missing one was tried
  (`Delivery.GapsComeFromFullQueues`).

## Model

| member | source | states |
|---|---|---|
| Reachable.RunIsSound | backend/internal/service/registration.go:56-220 | in every run, under every interleaving of stale reads and commits of all operations, every state satisfies the whole invariant and every state evolves into every later one |
| Reachable.StepKeeps | backend/internal/service/registration_review.go:17-112 | one step of any operation, its reads answered by any earlier states, keeps the invariant and moves rows only forward |
| Guarantees.NeverOverbooked | backend/internal/repository/registration.go:232-258 | the counters of an activity equal the numbers of its approved and pending registrations and never exceed the capacity |
| Guarantees.SlotsAreDistinctUsers | backend/migrations/mysql/000002_core_schema.up.sql:156-174 | the slots taken are held by exactly that many distinct users, so nobody holds two |
| Guarantees.RegistrationCommitsIff | backend/internal/repository/registration.go:33-61 | a prepared registration was read published or ongoing, is inside the window and of an eligible user, and commits iff fewer registrations than the capacity hold a slot and the user holds none, whatever happened since its reads |
| Guarantees.StaleInputFits | backend/internal/service/registration.go:141-220 | what cancel, approve, reject or expire prepared from stale reads fits the state it commits against whenever its status guard passes |
| Guarantees.TransitionCommitsIff | backend/internal/repository/registration.go:82-121 | a prepared transition commits iff the registration still has the status that was read |
| Guarantees.ClampNeverBites | backend/internal/repository/registration.go:243-249 | GREATEST(..., 0) never takes effect in a committing transition |
| Guarantees.TicketsMatchStatuses | backend/internal/service/registration_review.go:43-57 | active_flag marks exactly pending and approved; approved means exactly one ticket; pending, rejected and expired mean none |
| Guarantees.UnusedMeansApproved | backend/internal/repository/registration.go:102-115 | an unused ticket's registration is approved, a voided ticket's cancelled |
| Guarantees.CheckInRedeemsApproved | backend/internal/repository/checkin.go:20-43 | a check-in that commits redeems a registration approved at that instant, although it never reads the registration, and turns its ticket used |
| Guarantees.TicketWindows | backend/internal/service/registration.go:318-339 | in every state each ticket's window is from one hour before the start to the end of its activity |
| Guarantees.CheckInTimes | backend/internal/service/checkin.go:213-230 | every check-in was made inside that window |
| Guarantees.ApprovalDeadlines | backend/internal/service/registration.go:381-389 | every registration was made inside the registration window; it has a deadline iff approval is required, the earlier of 48 hours and the start, and never before it was made |
| Guarantees.RegisteredFormIsFinal | backend/internal/service/activity.go:184-250 | once somebody registered, capacity, windows and approval mode never change again |
| Guarantees.OutboxReplaysRegistrations | backend/internal/service/registration_review.go:223-244 | folding a registration's events in id order gives its status, each from_status being the previous to_status, and the status log records the same changes |
| Guarantees.TicketEventsMatchTickets | backend/internal/service/registration.go:97-126 | tickets issued, used and expired correspond one to one to their events; a void is announced exactly once |
| Guarantees.UsedTicketsAreCheckIns | backend/migrations/mysql/000002_core_schema.up.sql:199 | used tickets and check-in rows correspond one to one |
| Guarantees.OneRecordPerRequest | backend/migrations/mysql/000002_core_schema.up.sql:204 | over a whole run a client_request_id names at most one check-in, which never changes |
| Guarantees.CheckInIsIdempotent | backend/internal/service/checkin.go:45-115 | all successful answers to one client_request_id are the same record, under any interleaving and wherever its lookups were answered |
| Guarantees.ActivityLifeCycle | backend/internal/service/activity.go:489-565 | the status log is an allowed path from Draft to the status, the version counts the changes, at most one publication, a chat group iff published, dissolved iff cancelled, and windows that are non-empty and in order |
| Guarantees.ActivityEndsAreFinal | backend/internal/service/activity.go:593-613 | finished and cancelled are final, versions never decrease, and a published form is final |
| Guarantees.ReviewedFormIsPublished | backend/internal/service/activity.go:290-302 | a publishing review whose row changed at most twice since it was read publishes the form that was reviewed |
| Guarantees.GroupFallbackNeverFires | backend/internal/service/chat_membership_consumer.go:114-153 | the consumer never has to create a group for an approved registration |
| RegistrationAnswers.RegisterAnswer | backend/internal/service/registration.go:56-138 | Register answers, in this order: not found; conflict unless the activity was read published or ongoing and now is inside the registration window; not eligible; conflict if the user was read holding a slot; conflict if the pending and approved registrations fill the capacity; duplicate key; else the registration with its slot, deadline or ticket, and events |
| RegistrationAnswers.CancelAnswer | backend/internal/service/registration.go:140-220 | Cancel answers not found, forbidden, conflict unless read pending or approved, conflict if it moved since; else the slot is free, the registration cancelled and its unused ticket void |
| RegistrationAnswers.ApproveAnswer | backend/internal/service/registration_review.go:17-68 | Approve answers not found, forbidden iff the actor is neither the organizer nor an administrator, conflict unless pending when read and at the commit; else the pending slot is an approved one with a ticket valid from one hour before the start to the end |
| RegistrationAnswers.RejectAnswer | backend/internal/service/registration_review.go:70-112 | the same for Reject, which first refuses a reason that is empty or longer than 255, and frees the slot |
| RegistrationAnswers.ExpireAnswer | backend/internal/service/registration_review.go:146-197 | the timeout releases a registration iff it is pending when read and at the commit, and 48 hours after its creation or the start of the activity have come |
| CheckInAnswers.CheckInCommitsIff | backend/internal/service/checkin.go:45-115 | a check-in commits iff its request id has 1 to 64 characters and is not recorded, the ticket was found, the expected activity is its own, the actor is organizer or administrator, the ticket is unused when read and at the commit, the activity was not read cancelled, and now is between one hour before the start and the end; what it then writes, and that it writes nothing otherwise |
| CheckInAnswers.CheckInAnswer | backend/internal/service/checkin.go:45-115 | the error of the first of these conditions that fails |
| CheckInAnswers.ExpireTicketAnswer | backend/internal/service/checkin.go:145-184 | a ticket expires iff it is unused when read and at the commit and the end of its activity has come |
| ActivityAnswers.CreateAnswer | backend/internal/service/activity.go:135-182 | Create answers invalid unless title, capacity and times are acceptable; else a draft at version 0 with its event |
| ActivityAnswers.UpdateAnswer | backend/internal/service/activity.go:184-250 | Update answers not found, forbidden, conflict unless read draft or rejected, invalid, conflict if the version moved; else a draft with the new form |
| ActivityAnswers.SubmitAnswer | backend/internal/service/activity.go:252-261 | Submit answers not found, forbidden, conflict unless read draft or rejected and unmoved; else pending review |
| ActivityAnswers.CancelActivityAnswer | backend/internal/service/activity.go:263-272 | Cancel answers not found, forbidden, conflict unless read draft, pending review, published or ongoing and unmoved; else cancelled, and the group, if there is one, dissolved |
| ActivityAnswers.ReviewAnswer | backend/internal/service/activity.go:274-302 | a review answers invalid if a refusal has no reason or one longer than 500, not found, conflict unless pending review when read and at the commit; else published with its time and group, rejected, or a draft again, by the verdict |
| ActivityAnswers.SyncAnswer | backend/internal/repository/activity.go:222-275 | a status sync over candidates read at any earlier state moves exactly the listed rows whose status is still as read: to finished from the end on, from published to ongoing from the start on; and touches nothing but activities, their log and the outbox |
| StaleReads.RegisterStale | backend/internal/service/registration.go:56-138 | a registration is prepared only from a published or ongoing activity, and describes that activity in every later state |
| StaleReads.ApproveStale | backend/internal/service/registration_review.go:17-68 | an approval prepared earlier issues the ticket the current activity calls for |
| StaleReads.CancelStale | backend/internal/service/registration.go:140-220 | a cancellation whose guard passes voids the ticket the registration has, if any |
| StaleReads.UpdateStale | backend/internal/repository/activity.go:135-159 | an edit whose version guard passes was prepared from the current row, so a stale edit of the capacity never commits |
| StaleReads.TransitionStale | backend/internal/repository/activity.go:177-210 | a status change whose guard passes is an allowed edge from the current status |
| ActivityChanges.UpdateKeeps | backend/internal/repository/activity.go:135-159 | the edit of an activity keeps every invariant, because nobody can have registered yet |
| ActivityChanges.ActivityTransitionKeeps | backend/internal/repository/activity.go:177-210 | a status change with its group, log and event keeps every invariant |
| ActivityChanges.SyncKeeps | backend/internal/repository/activity.go:222-275 | a status sync over candidates read at any time keeps every invariant |
| Redemption.CheckInKeeps | backend/internal/repository/checkin.go:20-43 | redeeming a ticket keeps every invariant |
| Redemption.ExpireTicketKeeps | backend/internal/repository/ticket.go:97-116 | expiring a ticket keeps every invariant |
| Authority.OnlyTheOrganizerChangesAnActivity | backend/internal/service/activity.go:475-487 | whoever edits, submits or cancels an activity is its organizer when the change commits; it is then draft or rejected, or, to cancel, draft, pending review, published or ongoing |
| Authority.OnlyEntitledUsersMoveARegistration | backend/internal/service/registration_review.go:199-221 | whoever cancels a registration is its user; whoever approves or rejects it is the organizer in the rows at the commit, or made the request as an administrator; a timeout is past the deadline |
| Authority.OnlyManagersCheckIn | backend/internal/service/checkin.go:45-115 | a committed check-in was made by the organizer of the ticket's activity or by a request made as an administrator, for the expected activity and inside the ticket's window |
| Scenario.ATicketIsRedeemed | backend/internal/service/checkin.go:45-115 | there is a run from empty tables to a redeemed ticket |
| Scenario.RegisterAfterCancellation | backend/internal/repository/registration.go:33-61 | there is a run in which a registration commits after the activity was cancelled |
| Scenario.AnUnseenFormIsPublished | backend/internal/repository/activity.go:177-210 | for every number of changes from three on there is a run in which a review publishes a form it did not read, so the bound of two is exact |
| Database.Database.EnqueueOutboxEvents | backend/internal/repository/outbox.go:18-30 | the loop appends the events in order |
| Database.Database.AdjustParticipantCounters | backend/internal/repository/registration.go:232-258 | moves the counters, or reports a full activity and changes nothing |
| Database.Database.Register | backend/internal/repository/registration.go:33-61 | the statements with their rollbacks are exactly the atomic registration |
| Database.Database.Transition | backend/internal/repository/registration.go:82-121 | the statements with their rollbacks are exactly the atomic transition |
| Database.Database.CreateActivity | backend/internal/repository/activity.go:36-46 | inserts the activity and its events, or nothing |
| Database.Database.UpdateActivity | backend/internal/repository/activity.go:135-159 | the version compare-and-set, with its optional status change and log |
| Database.Database.TransitionActivity | backend/internal/repository/activity.go:177-210 | the status compare-and-set with group creation, dissolution, log and events, all or nothing |
| Database.Database.SyncStatuses | backend/internal/repository/activity.go:222-275 | the candidate loop equals its fold and reports the number of rows it logged |
| Database.Database.CheckIn | backend/internal/repository/checkin.go:20-43 | flips an unused ticket and inserts the record, or changes nothing |
| Database.Database.ExpireTicket | backend/internal/repository/ticket.go:97-116 | flips an unused ticket to expired with its event, or changes nothing |
| Scheduler.SyncTickEffect | backend/internal/repository/activity.go:337-354 | a tick finishes every published or ongoing activity from its end on, starts every published one from its start on, and leaves every other status, the SQL prefilter hiding none |
| Scheduler.TwoTicksAreOne | backend/internal/service/activity.go:455-461 | ticks at t1 and then t2 leave the statuses of one tick at t2, which a further tick would not change |
| Scheduler.ExpirePending | backend/internal/service/registration_review.go:146-197 | the service loop equals its fold over the listed rows and reports the rounds that committed |
| Scheduler.TickFreesWhatItReports | backend/internal/service/registration_review.go:146-197 | a tick reports min(200, n) and lowers each activity's pending counter by its listed registrations |
| Scheduler.TickServesTheOldest | backend/internal/repository/registration.go:220-230 | a tick takes up to 200 of those due at an earlier time before any that became due later |
| Scheduler.TicksDrain | backend/internal/service/registration_review.go:146-197 | n registrations due at t are gone after ceil(n/200) ticks and not before, whatever becomes due meanwhile |
| Scheduler.ListingExists | backend/internal/repository/registration.go:220-230 | for every table there is a listing with the ORDER BY and LIMIT that the other statements assume |
| Outbox.DelaysGrow | backend/internal/repository/outbox.go:112-124 | the backoff doubles from two seconds, is capped at 300 and never shrinks |
| Outbox.NineDelays | backend/internal/repository/outbox.go:13-16 | the nine delays before the tenth attempt add up to 810 seconds |
| Outbox.Claim | backend/internal/repository/outbox.go:61-78 | a claim takes claimable unlocked rows in id order and leaves one behind only when the limit is reached by earlier rows |
| Outbox.OutboxTable.PublishBatch | backend/internal/repository/outbox.go:61-110 | each claimed row gets the outcome of its own result, missing results count as failures, other rows stay, and sent plus failed is the number claimed |
| Relay.StepKeeps | backend/internal/repository/outbox.go:36-59 | every step of any worker keeps the relay's invariant |
| Relay.NothingIsLost | backend/internal/repository/outbox.go:36-110 | every row is sent and in the broker's log, or parked with retry_count 10, or claimable from its retry time on |
| Relay.SentAndParkedAreFinal | backend/internal/repository/outbox.go:61-110 | sent and parked rows never change again and events are never rewritten |
| Relay.WorkersAreDisjoint | backend/internal/repository/outbox.go:36-40 | two workers never hold the same row, and no held row is sent |
| Relay.ParkedAfterTenFailures | backend/internal/repository/outbox.go:112-124 | an event is parked exactly at its tenth committed failure, which comes at least 810 seconds after the first |
| Relay.AnEventIsSent | backend/internal/repository/outbox.go:36-110 | there is a run in which an event is claimed, landed and sent |
| Notifications.NotificationTables.Create | backend/internal/repository/notification.go:18-38 | a duplicate key inserts nothing and announces nothing |
| Notifications.NotificationTables.HandleEvent | backend/internal/service/notification_consumer.go:55-143 | handling a record creates the notification of its recipient, if it has one and none exists |
| Notifications.EachRecord | backend/internal/platform/kafka/consumer.go:43-73 | the committed records are a prefix, all handled, and at most one handled record stays uncommitted |
| Notifications.NotificationsAreTheHandledEvents | backend/internal/service/notification_consumer.go:116-149 | the notifications are those of the events handled, however often and in whatever order, each with exactly one realtime hint, every other key with none |
| Notifications.EachEventIsTold | backend/internal/service/notification_consumer.go:64-143 | event type by event type: a handled creation tells the organizer of a new registration, an approval, rejection or timeout tells the registrant so, every other event nobody |
| Notifications.CommittedMeansHandled | backend/internal/platform/kafka/consumer.go:43-73 | a committed offset never passes a record that was not handled |
| Notifications.SentAndCaughtUpMeansNotified | backend/internal/service/notification_consumer.go:25-76 | when an event is sent and the group has committed all of the partitions it subscribes to, the event has its notification and one hint exactly if it has a recipient |
| ChatMembership.ChatTables.JoinGroup | backend/internal/repository/chat.go:101-114 | an upsert that only reactivates an existing row |
| ChatMembership.ChatTables.LeaveGroup | backend/internal/repository/chat.go:116-122 | leaving twice is a no-op |
| ChatMembership.ChatTables.FindOrCreateGroup | backend/internal/service/chat_membership_consumer.go:114-153 | a missing group is created together with its owner's row |
| ChatMembership.ChatTables.HandleEvent | backend/internal/service/chat_membership_consumer.go:55-112 | the handler applies the join or leave of the record, skipping unknown users and activities |
| ChatMembership.LastWordWins | backend/internal/service/chat_membership_consumer.go:33-42 | the last join or leave of a user decides whether the row is active, the organizer of a still missing group apart |
| ChatMembership.RolesAndReadPointersAreKept | backend/internal/repository/chat.go:101-122 | whatever is replayed, a row keeps its role and read pointer |
| ChatMembership.ApplyIsIdempotent | backend/internal/service/chat_membership_consumer.go:74-112 | a record handled again, even after only its group was created, changes nothing more |
| ChatMembership.RestartsAreHarmless | backend/internal/platform/kafka/consumer.go:43-73 | with any number of crashes and restarts from the committed offset the tables end as one exactly-once pass leaves them |
| Rewinds.RewindsAreHarmlessIff | backend/internal/service/chat_membership_consumer.go:55-153 | every run that has caught up with a log, its offset set back to any earlier record any number of times, has the tables of a single pass iff each organizer whose group the log creates has no leave before the creating record, or a join or leave at or after it |
| Rewinds.StepKeeps | backend/internal/platform/kafka/consumer.go:43-73 | every step of such a run, rewinds and half handled joins included, keeps the tables between those of the furthest prefix and those of the whole pass |
| Rewinds.RewindsDoHarm | backend/internal/service/chat_membership_consumer.go:114-153 | for every log without that property, one replay from the start ends with an organizer outside the group whom a single pass leaves in it |
| Rewinds.RewindBeforeGroupCreation | backend/internal/service/chat_membership_consumer.go:114-153 | the shortest such run: the organizer cancels before anybody is approved, and the consumer is set back once |
| Partitions.MembershipAgreesIff | backend/internal/service/outbox.go:43 | however the partitions are handled side by side, records repeated after crashes included, a place ends as in the published order iff each partition with a join or leave of it ends with the same one as the whole; the organizer's place too, if joins find the group |
| Partitions.ApprovedYetOutside | backend/internal/service/chat_membership_consumer.go:55-112 | with a cancelled and an approved registration of one user in different partitions, the user may end outside the group |
| Announcements.StepAnnounces | backend/internal/service/registration.go:97-126 | every step of the core announces at most one registration event, first among its events, and one that fits the life cycle and the approval mode of the activity |
| Announcements.AgreesAlways | backend/internal/service/registration_review.go:223-244 | in every state, for every layout and partition, the last word on a user is a join iff the user holds a reviewed approved registration of that partition; where approval is required, there is a word iff there is a decided registration |
| Announcements.JoinsFindTheirGroups | backend/internal/service/chat_membership_consumer.go:114-153 | every join the core ever announces finds the group that publishing created |
| Announcements.MembersAreTheApproved | backend/internal/service/chat_membership_consumer.go:33-112 | handled in order, the topic makes exactly those users members, of those who were not before, who hold an approved registration that was reviewed |
| Announcements.MembersInAnyOrderIff | backend/internal/service/outbox.go:43 | that holds in every order of handling the partitions iff no approved registration is in another partition than a decided one of the same user and activity |
| Approvals.RunApprovesOnce | backend/internal/repository/registration.go:82-121 | the outbox holds at most one approval of a registration, from pending, and the registration is never pending afterwards |
| Approvals.WhatItTells | backend/internal/service/notification_consumer.go:116-149 | a notification of an approval is of the approved kind, goes to the registration's user and has exactly one hint |
| Approvals.ApprovalIsTold | backend/internal/service/notification_consumer.go:55-143 | once its event is sent and the group caught up, a registration has such a notification iff the status log records its approval |
| Approvals.ApprovalIsToldOnce | backend/internal/service/notification_consumer.go:116-149 | no registration ever has two such notifications |
| Approvals.NotificationsTellTheCore | backend/internal/service/notification_consumer.go:55-143 | every notification tells of a registration event the core committed, in the kind of that event, to the organizer or to the registration's own user |
| Approvals.DecisionsAreTold | backend/internal/service/notification_consumer.go:55-143 | every approval, rejection and timeout the core committed is told in its kind, with one hint, once its event is sent and the group caught up |
| Search.OlderReplacesNewerOnlyAtZero | backend/internal/platform/elasticsearch/elasticsearch.go:181-199 | an accepted write shows an older row version iff it writes version 0 over version 1, so public versions never go back |
| Search.Rebuilder.IndexDocument | backend/internal/platform/elasticsearch/elasticsearch.go:181-199 | a write is refused iff the stored external version is higher |
| Search.Rebuilder.ListForSearchRebuild | backend/internal/repository/activity.go:65-70 | the first rows after the cursor that are not deleted, in id order, none skipped |
| Search.Rebuilder.Rebuild | backend/internal/service/activity_search_indexer.go:144-174 | for any table and batch size the scan ends; it succeeds iff no document is ahead of its row, and then indexed every live activity, counted each once and sampled the first min(3, n) |
| LiveReindex.ReachesKeeps | backend/cmd/reindex/main.go:34-94 | every step of the reindex, the live indexer and the services keeps the invariant and no document goes back |
| LiveReindex.NothingIsMissing | backend/cmd/reindex/main.go:57-91 | after success every activity present when compensation began is in the aliased index, no older than it was then |
| LiveReindex.NothingIsMissingFromTheSwitchOn | backend/internal/platform/elasticsearch/elasticsearch.go:103-121 | from the switch on, even if compensation fails, every activity present when the build began is in the aliased index |
| LiveReindex.FreshTargetsVerify | backend/cmd/reindex/main.go:68-82 | when the run creates its target, the count and sample checks never fail |
| LiveReindex.OnlyVerifiedIsSwitched | backend/cmd/reindex/main.go:68-82 | the alias is only ever switched to an index that, when it was verified, held as many documents as were counted and all the samples |
| LiveReindex.DocumentsNeverGoBack | backend/internal/platform/elasticsearch/elasticsearch.go:181-199 | documents stay and their external versions never decrease |
| LiveReindex.PublicDocumentsNeverGoBack | backend/internal/service/activity_search_indexer.go:107-135 | once an index holds a public version of an activity, that index never holds an older one again |
| LiveReindex.OnlyTheSwitchSetsBack | backend/internal/platform/elasticsearch/elasticsearch.go:103-121 | if what search shows of a public activity is older or gone later, the alias moved in between, by a switch |
| LiveReindex.TheSwitchSetsBackWhatChanged | backend/internal/platform/elasticsearch/elasticsearch.go:103-121 | the switch sets an activity back only if it was not live when the build began or its row changed since |
| LiveReindex.TheSwitchSetsBackIff | backend/cmd/reindex/main.go:57-82 | with a target the run created, the switch sets a public activity back iff the build did not store it or had read an older version than search shows |
| LiveReindex.CompensationUndoesTheSetback | backend/cmd/reindex/main.go:84-94 | after success the aliased document of every activity live when compensation began is at least as new as anything search showed before that |
| LiveReindex.TheSwitchSetsBack | backend/internal/platform/elasticsearch/elasticsearch.go:103-121 | there is a run in which the switch makes search show an older public version |
| LiveReindex.ZeroReplacesOne | backend/internal/platform/elasticsearch/elasticsearch.go:181-199 | there is a run in which version 0 replaces version 1 in the aliased index |
| LiveReindex.FreshWritesAreAccepted | backend/internal/service/activity_search_indexer.go:80-105 | no index is ahead of the table, so a refused writer succeeds once it reloads the row |
| Hub.Connection.SendRaw | backend/internal/realtime/connection.go:59-73 | queues the frame iff the connection was not seen closed and has room, never blocking; one that closes between the two selects still takes it |
| Hub.Connection.WriteOne | backend/internal/realtime/connection.go:85-99 | frames are written in the order accepted, some of them possibly after the close; a failed write closes the connection, and a stopped loop writes no more |
| Hub.Connection.Close | backend/internal/realtime/connection.go:101-109 | closes, and closing again changes nothing |
| Hub.Hub.Register | backend/internal/realtime/hub.go:33-48 | byUser lists exactly the registered connections of each user |
| Hub.Hub.Unregister | backend/internal/realtime/hub.go:50-73 | removes exactly the pairs of that connection from all indexes and leaves no empty set |
| Hub.Hub.Join | backend/internal/realtime/hub.go:75-83 | adds one pair; rooms hold only registered connections afterwards iff they did before and the connection is registered |
| Hub.Hub.JoinGroups | backend/internal/realtime/hub.go:85-91 | adds one pair for each room |
| Hub.Hub.DeliverToGroup | backend/internal/realtime/hub.go:93-103 | every connection of the room accepts the frame or is closed, no other is touched, and the count is of those that could take it |
| Hub.Hub.DeliverToUser | backend/internal/realtime/hub.go:105-115 | the same for the registered connections of a user |
| Hub.Deliver | backend/internal/realtime/hub.go:137-150 | the loop offers the frame to each target and closes those that refuse |
| Delivery.NoGaps | backend/internal/realtime/hub.go:93-150 | an open connection that a delivery is through with has its frame iff it was in the room when the delivery began, and once |
| Delivery.TheRoomHasTheFrame | backend/internal/realtime/hub.go:93-103 | an open connection that a delivery is through with has its frame iff it was in the room when the delivery began |
| Delivery.OwedAreTheMembers | backend/internal/realtime/hub.go:93-103 | a delivery is owed to exactly the members the room had at that moment, whoever joins or leaves later |
| Delivery.FramesKeepTheirOrder | backend/internal/realtime/connection.go:59-99 | frames of deliveries that did not overlap are accepted in their order |
| Delivery.GapsAreExactlyUnsettled | backend/internal/realtime/hub.go:137-150 | an open connection lacks a frame it is owed exactly while the delivery has not tried it or has yet to close it |
| Delivery.GapsComeFromFullQueues | backend/internal/realtime/connection.go:59-73 | an open connection misses a frame that its delivery has already tried iff 64 frames were queued at that try |
| Delivery.AGapAppears | backend/internal/realtime/hub.go:137-150 | there is a run in which an open connection has a later frame and lacks an earlier one |
| Delivery.OnlySlowPeersAreClosed | backend/internal/realtime/hub.go:137-150 | an open connection is closed only by a hangup, a failed write, or a delivery whose frame found 64 frames queued |
| Delivery.QueuesAreBounded | backend/internal/realtime/connection.go:12-14 | at most 64 frames are queued; the peer reads a beginning of what was accepted, all but the queued frames until the write loop stops |

## Left out

- HTTP handlers, middleware, authentication, presence, mail, file storage, view building and paging.
- Student verification: its transition has no from-status guard, so its log is a chain only without concurrency.
- Chat messages, read pointer updates and the group created by publishing while the membership consumer runs.
- The owner's membership row that publishing writes together with the group in the registration core.
- Ticket codes: how they are drawn, and the lookup of a ticket by its code.
- Columns without a guard or an invariant: texts, images, tags, locations, view counts, row timestamps.
- The eligibility rules of student verification, which enter as one boolean of the request.
- ExpireTickets: its single round is an action of the protocol; the loop over a listing has the shape of Scheduler.ExpirePending.
- The service operations are functions of the states that answered their reads, not methods, because in `Protocol` each read may be answered by a different state.
- Two processes inserting activities whose ids commit out of order, which the reindex model allows and no statement mentions.
- Document contents beyond the row version: counters and view counts change without a version and may lag in the index.
- The topic of an event, and the order of one key's events across partial publish failures, which the code does not promise.
- Authority.OnlyEntitledUsersMoveARegistration: the administrator role is a constant of the request; a role that somebody withdraws by hand in the database before the commit is not noticed.
- Authority.OnlyManagersCheckIn: the same holds of the operator's role.
- Partitions.MembershipAgreesIff: leaves out an organizer whose group the log itself would create, which `Announcements.JoinsFindTheirGroups` says no log of the core does, and offsets set back, which `Rewinds` has for one partition.
- The organizers' own membership in `Announcements`, which begins with their group.
