# Chat server: verified model

A chat server keeps WebSocket clients in rooms and voice rooms through one hub goroutine, fans messages out over Redis
pub/sub, limits request rates with token buckets, and keeps rooms, members, invites and messages in PostgreSQL. This
project models those five parts and proves what they keep over every run. `dafny verify dfyconfig.toml` checks all of it.

Each part has two layers. The values and steps (`HubModel`, `PubSubModel`, `RateLimitModel`, `StoreModel`,
`PagingModel`) say what one event or one SQL statement does, and the theorems are about every sequence of them. The
classes (`Hub`, `Client`, `PubSubAdapter`, `TokenBucket`, `Database`, `RoomService`, `MessageRepo`) update their fields in
place, with the loops of the server, and each method is proved to perform exactly the step of the values.

- **Hub** (`Mailbox`, `HubModel`, `HubIndex`, `HubAnySchedule`, `HubMessages`, `HubInOrder`, `HubVoice`, `HubPresence`,
  `HubWitness`, `VoiceWitness`, `PresenceWitness`, `Hub`). The select in `Run` reads separate channels, so it does not order a client's
  register, envelopes and unregister. A run is any sequence of enabled events, and the theorems of `HubAnySchedule` hold
  of all of them. `InOrder` is the predicate that the hub consumes a client's register before its envelopes and its
  unregister after them; the theorems of `HubInOrder` and `HubVoice` need it, a run that satisfies it is given, and two
  runs show what fails without it. Go iterates maps in an unspecified order: every event carries the orders the runtime
  picked, and everything is proved for all of them.
- **Pub/sub** (`PubSub`, `PubSubAdapter`, `HubPubSub`, `DeliveryOrder`, `ChatFlow`, `PubSubWitness`). `HubPubSub` puts the hub, the
  adapter, the subscribing goroutines and the messages on their way into one system whose moves interleave: the hub's calls
  one by one, an Unsubscribe in its two parts, the stores of the goroutines, publications from anywhere, and for each
  subscription a queue of the copies it has received, forwarded in order and cut short only after the close. `ChatFlow`
  follows a saved message from the client that sent it to the clients that are offered it.
- **Rate limiter** (`RateLimit`, `RateLimitBounds`, `RateLimitAdmits`, `RateLimitIdeal`, `TokenBucket`). Integer refills that drop remainders,
  the saturated elapsed time of a new key, and the sweep that deletes stale keys. A call may read the clock twice.
- **Store** (`Store`, `StoreCalls`, `StoreThreads`, `StoreHistory`, `StoreAuthority`, `StoreInvites`, `StoreOwners`,
  `StoreDMs`, `RoomService`). Every SQL statement is one
  atomic move, and the statements of any number of service calls interleave; a call may also stop half way. The theorems
  of `StoreHistory`, `StoreAuthority`, `StoreInvites`, `StoreOwners` and `StoreDMs` are about all such histories. A call
  that runs alone is the atomic step the service's method is proved against (`AloneIsCall`), and `StoreCalls` says of that
  step who is allowed to make it, what each answer means and what becomes of each row.
- **Hub and store** (`HubStore`, `HubStoreWitness`). One server: the hub asks the store twice during a join, and the
  statements of all other calls interleave, also between the two questions.
- **Paging** (`Paging`). Pages of a room read one after the other, while the store changes in any way between them.

`Domain` holds the types the parts share.

Where the code and its comments disagree, the model follows the code:

- `internal/adapter/inbound/http/middleware.go:12` and `internal/adapter/inbound/http/server.go:31-36` speak of requests per
  minute or per three minutes. `WindowBound` and `WindowBoundIsTight` give the exact figure: the capacity on top of one
  request per refill period.

What one might expect and is false of the code, with the condition under which it is true:

- `internal/adapter/outbound/postgres/message_repo.go:31-32` promises pages with the newest messages first, and
  `migrations/001_init.sql:29` and `internal/app/ports.go:35` call message ids time-sorted, but
  `internal/app/chat_service.go:28` generates random uuids (`OlderIsListedFirst`). `NewestFirstIff` and
  `ScrollsNewestFirstIff` say for which ids the promise is kept.
- An unregister does not always take the client out of the hub: the channels also let the hub consume it first, and then
  it is lost (`EarlyUnregisterIsLost`). Under any schedule a queue is closed exactly if a register was consumed before an
  unregister (`ClosedExactly`). A send after the close panics (`LateEnvelopePanics`; `PanicsExactly` says when).
- The owner of a room does not always have the owner role: joining the public or voice room over the socket, setting the
  own role or accepting an own invite takes it away (`OwnerIsDemotedByJoining`, `OwnerCanStepDown`,
  `OwnerAcceptsOwnInvite`). `OwnerRowAfter`, `OwnerRowIff` and `OwnerKeptIff` say exactly when the role is kept, statement
  by statement and over histories, `OwnerKeepsRoleIff` and `OwnerLostToCall` by calls.
- Two concurrent `GetOrCreateDM` calls can open two rooms for one pair (`RacingCallsDuplicate`; `OpeningKeepsUniqueIff`).
- A subscription stored after its Unsubscribe stays live (`LateStoreDuplicates`), and a client that leaves and joins again
  can be offered one message twice (`OneMessageTwice`). `OfferedPerSubscription` counts how often, `OfferedOnceIff` says
  when it is once.
- When one of a user's connections parts from a voice room, the others are told that the user left, also if another
  connection of the user is still there (`OtherTabForgotten`; `PartingKeepsViewIff` says when the view stays right).
- When one of a user's connections disconnects, the user is marked and announced offline, also if another connection of
  the user is still in the hub (`SaidOfflineWhileHere`; `OfflineNoticeTrueIff` and `MarksRightIff` say when this is right).
- A client in a private room does not always belong to a current member: a kick never reaches the hub, and the client
  still hears the room (`KickedStillHears`, `KickedGuestHears`; `StillBelongsIff` says when it belongs).

## Model

| member | source | states |
|---|---|---|
| Mailboxes.OfferLawful | internal/adapter/inbound/ws/client.go:94-121 | a non-blocking send keeps the queue bounded and keeps what was taken plus what is queued an in-order selection of what was offered |
| Mailboxes.TakeLawful | internal/adapter/inbound/ws/client.go:73-78 | so does a receive by the write pump |
| Mailboxes.OfferSeqEffect | internal/adapter/inbound/ws/client.go:94-121 | a batch of sends only appends to the history of an open queue, loses a message only when the queue ends up full, and faults on a closed queue exactly when there is something to send |
| Mailboxes.DropsExactlyWhenFull | internal/adapter/inbound/ws/client.go:73-121 | however the sends of the hub and the read pump, the receives of the write pump and the close interleave, also within one event: the law of the queue holds, and the dropped messages are exactly those sent to an open, full channel |
| Mailboxes.TurnOf | internal/adapter/inbound/ws/client.go:73-82 | a receive yields the oldest queued message, also from a closed channel; the pump ends iff the channel is closed and drained, and waits if it is open and empty |
| Hubs.Client.Offer | internal/adapter/inbound/ws/client.go:104-107 | the send on the client object is the send on the mailbox: enqueued if open and not full, dropped if full |
| Hubs.Client.CloseSend | internal/adapter/inbound/ws/hub.go:76 | close marks the channel closed and keeps what is buffered |
| Hubs.Client.Receive | internal/adapter/inbound/ws/client.go:73-82 | the write pump takes the oldest message, also from a closed channel, waits on an empty open one, and ends on a drained closed one |
| Hubs.Hub.constructor | internal/adapter/inbound/ws/hub.go:48-62 | a new hub is the initial state of every run |
| Hubs.Hub.Register | internal/adapter/inbound/ws/hub.go:67-68 | registering adds the client to the hub and changes nothing else |
| Hubs.Hub.JoinRoom | internal/adapter/inbound/ws/hub.go:136-188 | repeated joins are ignored; a missing room or a refused private or DM room yields the error message and no membership; otherwise both indexes gain the client, a newly opened room gets one Subscribe call, and the joiner is told the members |
| Hubs.Hub.Refuse | internal/adapter/inbound/ws/hub.go:140-162 | which joins are refused, by room type, ownership and membership |
| Hubs.Hub.LeaveRoom | internal/adapter/inbound/ws/hub.go:190-199 | both indexes lose the client, and a room left empty is removed with one Unsubscribe call |
| Hubs.Hub.DeliverLocal | internal/adapter/inbound/ws/hub.go:239-246 | one non-blocking send to each client of the room and to nobody else |
| Hubs.Hub.VoiceJoin | internal/adapter/inbound/ws/hub.go:248-273 | the roster gains the client, the joiner is sent the other participants and each of them is sent the joiner |
| Hubs.Hub.VoiceLeave | internal/adapter/inbound/ws/hub.go:275-289 | the roster loses the client, an empty roster is removed, and the remaining participants are told, also when the client was not there |
| Hubs.Hub.RelaySignal | internal/adapter/inbound/ws/hub.go:291-315 | a signal goes to one participant of the target user if there is one, and to nobody for the nil user |
| Hubs.Hub.PeersOf | internal/adapter/inbound/ws/hub.go:324-334 | the loop over the hub's index collects exactly the other clients of the client's rooms |
| Hubs.Hub.Unregister | internal/adapter/inbound/ws/hub.go:72-89 | the whole unregister branch, with its loops in any order, is the unregister step; an unknown client changes nothing |
| Hubs.Hub.LeaveEvery | internal/adapter/inbound/ws/hub.go:77-79 | deleting from c.rooms while ranging over it leaves every room once |
| Hubs.Hub.VoiceLeaveEvery | internal/adapter/inbound/ws/hub.go:81-85 | deleting voice rooms while ranging over them leaves each voice room the client was in |
| Hubs.Hub.Handle | internal/adapter/inbound/ws/hub.go:66-96 | one turn of the select is one enabled step of the model |
| Hubs.Hub.HandleMessage | internal/adapter/inbound/ws/hub.go:114-134 | the switch over message types runs the step of the message; a failed save is answered with an error, a saved message is published to its room and nothing else happens |
| Hubs.Hub.Run | internal/adapter/inbound/ws/hub.go:64-98 | handling any finite sequence of requests is a run of the model, for the map orders that occurred |
| HubIndex.StepKeepsIndex | internal/adapter/inbound/ws/hub.go:66-96 | every enabled event keeps the two-way index, non-empty rooms, alternating broadcaster calls and lawful queues |
| HubAnySchedule.IndexesAgree | internal/adapter/inbound/ws/hub.go:163-199 | in every run, under any schedule, r is in c.rooms iff c is in h.rooms[r], and no room or voice room is left empty |
| HubAnySchedule.MembershipExactly | internal/adapter/inbound/ws/hub.go:136-289 | after any event of any run, the members of every room and voice room: a client enters by a permitted join, leaves by its own leave or unregister, and nothing else changes a membership |
| HubAnySchedule.CallsAlternate | internal/adapter/inbound/ws/hub.go:164-198 | the calls for each room alternate Subscribe and Unsubscribe, with one outstanding iff the room has a client |
| HubAnySchedule.UnregisterIsolates | internal/adapter/inbound/ws/hub.go:72-89 | unregistering a registered client, in any iteration order, leaves it in no room and no voice room with its queue closed, and changes nobody else's memberships |
| HubAnySchedule.ClosedOnce | internal/adapter/inbound/ws/hub.go:73-76 | when each connection registers once, no queue is closed twice in any run |
| HubAnySchedule.ClosedExactly | internal/adapter/inbound/ws/hub.go:67-76 | when each connection registers once, under any schedule: a queue is closed iff some register of its client was consumed before some unregister, and a client is in the hub iff it was registered and that is not so |
| HubAnySchedule.QueueLaw | internal/adapter/inbound/ws/client.go:73-121 | at all times a queue holds at most 256 messages, offered = taken + queued + dropped, and taken followed by queued is an order-preserving selection of offered |
| HubAnySchedule.StepMail | internal/adapter/inbound/ws/hub.go:66-96 | what every kind of event offers to every client, message by message and in order |
| HubAnySchedule.JoinerIsToldTheRoom | internal/adapter/inbound/ws/hub.go:175-187 | the members list sent to a joiner has one entry for each client now in the room, itself included |
| HubMessages.SavedMessagesPublished | internal/adapter/inbound/ws/hub.go:200-222 | after any sequence of events the hub has published exactly the messages that clients sent and the store saved, each once, to its room, in the order they were handled; a message whose save failed is not published |
| HubMessages.RefusedJoinerIsTold | internal/adapter/inbound/ws/hub.go:140-162 | in every run a client whose join is refused is offered room_not_found if the room was not found and forbidden otherwise; nobody else is offered anything and nothing else changes |
| HubMessages.NotesAndErrors | internal/adapter/inbound/ws/hub.go:200-237 | in every run a typing note that has its typing field is offered once to every client of the room, the sender included, and an error to the client it concerns alone; nothing else changes |
| HubMessages.SignalReachesCallee | internal/adapter/inbound/ws/hub.go:291-315 | in every run a signal is offered to exactly one participant of the voice room that belongs to the target user if there is one, with the sender's user, and to nobody otherwise or for the nil user |
| HubAnySchedule.AudienceIsSharedRooms | internal/adapter/inbound/ws/hub.go:324-334 | the peers found through the hub's index are the other clients whose own rooms meet the client's, and the relation is symmetric |
| HubAnySchedule.OneOfflineNotice | internal/adapter/inbound/ws/hub.go:74-88 | unregistering offers exactly one offline notice to each client that shared a room before, and none to others, although memberships are dismantled in between |
| HubPresence.OfflineNoticeTrueIff | internal/adapter/inbound/ws/hub.go:72-88 | under any schedule a client that shared a room with a disconnecting one is told once that its user is offline, and that is true iff no other client of the user is in the hub |
| HubPresence.MarkedArePresent | internal/adapter/inbound/ws/hub.go:67-87 | in every run nobody is marked online without a client in the hub |
| HubPresence.MarksRightIff | internal/adapter/inbound/ws/hub.go:67-87 | the marked users are those with a client in the hub, at every moment of a run, iff no client leaves the hub while another client of its user is there |
| PresenceWitness.SaidOfflineWhileHere | internal/adapter/inbound/ws/hub.go:72-88 | an in-order run after which a user is announced offline and no longer marked online while the user's other connection is in the hub |
| HubInOrder.MailGoesToOpenQueues | internal/adapter/inbound/ws/hub.go:239-289 | every message of an in-order event goes to an open queue, including those sent after the close inside unregister |
| HubInOrder.StepKeepsNoFault | internal/adapter/inbound/ws/hub.go:66-96 | an event consumed on time keeps members registered and queues open |
| HubInOrder.ConsumedSoFar | internal/adapter/inbound/ws/hub.go:66-90 | in every in-order run the hub's clients are those registered and not unregistered, and exactly the unregistered ones have closed queues |
| HubInOrder.NoSendOnClosed | internal/adapter/inbound/ws/hub.go:64-98 | in every in-order run no queue is sent to after its close or closed twice, and members of rooms and voice rooms are clients with open queues |
| HubVoice.VoiceViewsAgree | internal/adapter/inbound/ws/hub.go:248-289 | in every in-order run in which nobody parts from the voice room beside another connection of its user, a participant whose queue dropped nothing and who has read it sees exactly the users of the other participants |
| HubVoice.PartingKeepsViewIff | internal/adapter/inbound/ws/hub.go:72-89 | after a voice leave, or the disconnect of a participant, a participant's view is still right iff no other participant belongs to the user of the one that parted |
| HubVoice.OneConnectionPartsAlone | internal/adapter/inbound/ws/hub.go:248-289 | one connection per user suffices for the assumption of VoiceViewsAgree |
| VoiceWitness.OtherTabForgotten | internal/adapter/inbound/ws/hub.go:275-289 | an in-order run in which one of a user's two connections leaves, or disconnects, and a third client no longer sees the user although the other connection is still there |
| HubWitness.InOrderRunExists | internal/adapter/inbound/ws/hub.go:100-112 | the in-order and one-connection assumptions hold of a run with a register, a voice join and a disconnect |
| HubWitness.LateEnvelopePanics | internal/adapter/inbound/ws/hub.go:66-96 | a run that consumes a voice join after the unregister sends on the closed queue |
| HubWitness.EarlyUnregisterIsLost | internal/adapter/inbound/ws/hub.go:72-73 | a run that consumes the unregister first leaves the client in the hub with an open queue |
| HubWitness.PanicsExactly | internal/adapter/inbound/ws/hub.go:64-98 | under any schedule an event panics on a queue iff the queue is closed and the event has mail for it |
| PubSubAdapters.PubSubAdapter.Start | internal/adapter/inbound/ws/hub.go:167-173 | the go statement starts one pending subscription and leaves the table alone |
| PubSubAdapters.PubSubAdapter.StoreSub | internal/adapter/outbound/redis/pubsub.go:33-36 | the mutex section of Subscribe makes the subscription live and the table's entry for its channel |
| PubSubAdapters.PubSubAdapter.Unsubscribe | internal/adapter/outbound/redis/pubsub.go:52-65 | Unsubscribe is two steps: it deletes the table's entry in the mutex section and closes that subscription after it; without an entry it only counts as missed |
| PubSubModel.RunSound | internal/adapter/outbound/redis/pubsub.go:30-65 | every interleaving keeps: table entries are live, open rooms keep their latest subscription, and subscriptions are conserved |
| PubSubModel.SubscriptionsConserved | internal/adapter/outbound/redis/pubsub.go:30-65 | a room has one subscription alive while open, and one more for every Unsubscribe that came before its store |
| PubSubModel.OneSubscriptionIffNothingMissed | internal/adapter/outbound/redis/pubsub.go:30-65 | a room has exactly the subscription of its latest opening, and a closed room none, iff no Unsubscribe for it missed |
| PubSubModel.TableIsOpenRooms | internal/adapter/outbound/redis/pubsub.go:33-36 | then, once stored, the table has exactly the open rooms with one live subscription each |
| PubSubModel.ReceiversCounted | internal/adapter/outbound/redis/pubsub.go:30-65 | with no store or close outstanding, the subscriptions of a room that receive are its live ones: one while it is open, and one more for every Unsubscribe that missed |
| PubSubModel.LateStoreDuplicates | internal/adapter/outbound/redis/pubsub.go:33-65 | a run of the adapter in which a store after its Unsubscribe leaves a reopened room with two live subscriptions |
| HubPubSub.SystemMatches | internal/adapter/inbound/ws/hub.go:164-198 | in the combined system the hub's events are a run of the hub, the adapter's steps a run of the adapter, and both agree on the calls made |
| HubPubSub.OpenRoomsHear | internal/adapter/inbound/ws/hub.go:164-198 | under every interleaving, while the hub has clients in a room the subscription of its latest opening is pending or live |
| HubPubSub.TableFollowsHub | internal/adapter/outbound/redis/pubsub.go:30-65 | with nothing missed or outstanding for a room, the table has an entry iff the hub has clients there, and one live subscription |
| HubPubSub.PromptMissesNothing | internal/adapter/outbound/redis/pubsub.go:52-59 | if each subscription is stored before the hub's next call for its room, no Unsubscribe misses |
| HubPubSub.CopiesConserved | internal/adapter/outbound/redis/pubsub.go:38-49 | every copy a subscription received was forwarded to the hub, is on its way, or was lost with its closed subscription, and never two of these |
| HubPubSub.OfferedWhenHeard | internal/adapter/inbound/ws/hub.go:94-95 | in every in-order run a client is offered a message as often as a copy of it was forwarded while the client was in the room |
| HubPubSub.FanOutExactlyOnce | internal/adapter/inbound/ws/hub.go:222-246 | a message published once, with nothing missed or outstanding for the room, is offered once to each client in the room when it is forwarded and to nobody else; to nobody while it is on its way, lost with its closed subscription, or published to a room without a table entry |
| HubPubSub.FirstInFirstOut | internal/adapter/outbound/redis/pubsub.go:38-49 | at all times what a subscription forwarded followed by what it still holds is what it received, in that order; only a closed one may have lost the end of it |
| HubPubSub.OfferedPerSubscription | internal/adapter/inbound/ws/hub.go:222-246 | a message published once, with no store or close outstanding for its room, once all its copies are forwarded has been offered to a client that was in the room each time as often as the room had receiving subscriptions: once if it was open, and once for every Unsubscribe that missed |
| HubPubSub.OfferedOnceIff | internal/adapter/inbound/ws/hub.go:222-246 | so a client of an open room is offered it once iff no Unsubscribe for the room missed |
| ChatFlow.SavedChatIsHandedOut | internal/adapter/inbound/ws/hub.go:200-222 | under every interleaving the call the hub makes for a saved message appends one copy of it to the queue of each receiving subscription of its room and to no other queue |
| ChatFlow.SavedChatIsOffered | internal/adapter/inbound/ws/hub.go:200-246 | in every in-order run: a message sent to a room and saved, published by nothing else, with nothing missed or outstanding for the room when the call is made, is handed once to the room's one subscription, and once that has brought it to the hub it has been offered once to each client then in the room and to nobody else |
| PubSubWitness.OneMessageTwice | internal/adapter/outbound/redis/pubsub.go:33-65 | a run of the whole system in which a client joins, leaves and joins again, and is offered one publication twice |
| DeliveryOrder.ForwardedInOrder | internal/adapter/outbound/redis/pubsub.go:38-49 | of two messages handed to one subscription the first has been forwarded when the second is |
| DeliveryOrder.PublishedInOrder | internal/adapter/inbound/ws/hub.go:222-246 | of two messages published to a room, received by the subscription in the table, with nothing missed: a client that is offered the second was offered the first before, at an earlier place in its channel, if it was in the room when the first arrived |
| TokenBuckets.TokenBucket.Allow | internal/middleware/ratelimit.go:46-72 | a call updates only its key's bucket and answers as the step does |
| TokenBuckets.TokenBucket.Spend | internal/middleware/ratelimit.go:56-71 | refill, saturation, stamping and spending on one bucket in place |
| TokenBuckets.TokenBucket.SweepTick | internal/middleware/ratelimit.go:33-39 | deleting while ranging, in any order and with a clock reading for each key, removes exactly the keys stale for more than ten minutes at their reading |
| RateLimitModel.KeysAreIsolated | internal/middleware/ratelimit.go:31-72 | in any interleaved history a key's answers are those of a limiter that sees only its calls and the sweeps |
| RateLimitModel.RunSettles | internal/middleware/ratelimit.go:56-71 | a stored bucket holds between 0 and capacity - 1 tokens and was seen no later than now |
| RateLimitBounds.WindowBound | internal/middleware/ratelimit.go:31-72 | every closed window of length W, after any history, admits at most (1 + evictions of the key in it) * capacity + floor(W / refillPer) |
| RateLimitBounds.WindowBoundUnevicted | internal/middleware/ratelimit.go:46-72 | without an eviction inside, at most capacity + floor(W / refillPer) |
| RateLimitAdmits.RefusedSoonAfterAdmission | internal/middleware/ratelimit.go:46-72 | in every clocked history, sweeps included, a refused call comes less than one refill period after a call of the key that was let through: refusals never postpone the next admission |
| RateLimitAdmits.SpacedCallsAdmitted | internal/middleware/ratelimit.go:46-72 | a window that holds n calls of a key one refill period apart, among any others, admits at least n - 1 of its requests, and n if it starts with the history |
| RateLimitAdmits.RestEarnsBurst | internal/middleware/ratelimit.go:46-72 | a key that was never called, or not for q refill periods, q up to the capacity, has at least q of its next calls admitted before one is refused |
| RateLimitIdeal.WindowBoundIsTight | internal/middleware/ratelimit.go:46-72 | for every n some window of n refill periods admits capacity + n requests without an eviction |
| RateLimitIdeal.CallKeepsAhead | internal/middleware/ratelimit.go:56-71 | one call keeps the potential argument: the exact bucket's level plus its lead in admissions covers the real bucket's tokens and uncredited time |
| RateLimitIdeal.DominatedByExact | internal/middleware/ratelimit.go:46-72 | after every history without an eviction of the key, no more requests were admitted than the exact fractional bucket admits |
| RateLimitIdeal.EvictionInvisibleIff | internal/middleware/ratelimit.go:31-41 | the sweep changes no answer on any history iff capacity * refillPer is at most ten minutes and one nanosecond |
| RateLimitIdeal.SweepGrantsAgain | internal/middleware/ratelimit.go:31-54 | above that, a drained and swept key is granted its capacity a second time where the unswept limiter refuses |
| RateLimitIdeal.ConfiguredLimits | internal/adapter/inbound/http/server.go:32-36 | the sweep cannot be noticed with the global and refresh limits and can with the credential and demo limits |
| RoomServices.Database.AddMember | internal/adapter/outbound/postgres/room_repo.go:81-88 | the upsert writes or overwrites one member row, and is refused for a room that is gone |
| RoomServices.Database.RemoveMember | internal/adapter/outbound/postgres/room_repo.go:90-95 | one member row is deleted |
| RoomServices.Database.SetMemberRole | internal/adapter/outbound/postgres/room_repo.go:131-142 | an existing row gets the role; a missing one is not found |
| RoomServices.Database.RenameRoom | internal/adapter/outbound/postgres/room_repo.go:161-172 | the name of an existing room changes; a missing one is not found |
| RoomServices.Database.DeleteRoom | internal/adapter/outbound/postgres/room_repo.go:63-79 | the room goes with its members and invites |
| RoomServices.Database.CreateInvite | internal/adapter/outbound/postgres/invite_repo.go:21-28 | a pending invite is inserted unless its room is gone or the room and invitee already have one |
| RoomServices.Database.Answer | internal/adapter/outbound/postgres/invite_repo.go:51-75 | only a pending invite changes, to the status asked for and nothing else; otherwise not found |
| RoomServices.Database.FindDM | internal/adapter/outbound/postgres/friend_repo.go:110-119 | some DM room with both users, and none only if there is none |
| RoomServices.Database.GetOrCreateDM | internal/adapter/outbound/postgres/friend_repo.go:108-140 | returns an existing DM of the two or inserts one with both rows; two equal users insert nothing |
| RoomServices.RoomService.Create | internal/app/room_service.go:21-38 | a blank name is refused; otherwise the room and its owner's row appear |
| RoomServices.RoomService.Delete | internal/app/room_service.go:48-53 | only the owner or an admin deletes a room |
| RoomServices.RoomService.InviteUser | internal/app/room_service.go:59-88 | the checks of an invite in their order, and the pending invite |
| RoomServices.RoomService.AcceptInvite | internal/app/room_service.go:90-102 | only the invitee of a pending invite becomes a member, and the invite is used up |
| RoomServices.RoomService.DeclineInvite | internal/app/room_service.go:104-113 | only the invitee declines a pending invite, which is then declined |
| RoomServices.RoomService.SetRole | internal/app/room_service.go:138-155 | nobody is made owner, and only an owner sets roles of members |
| RoomServices.RoomService.KickMember | internal/app/room_service.go:157-181 | owners kick anybody else, admins plain members, nobody themselves |
| RoomServices.RoomService.JoinFromHub | internal/adapter/inbound/ws/hub.go:140-162 | joining a public or voice room upserts a member row; DM and private rooms are only checked |
| RoomServices.RoomService.Rename | internal/app/room_service.go:203-220 | the checks of a rename, the new name in the table and in the returned room |
| StoreThreads.AloneIsCall | internal/app/room_service.go:21-220 | a call whose statements run without interference has the outcome and effect of the atomic step of its method |
| StoreCalls.TrimSpaceExactly | internal/app/room_service.go:22 | trimming yields the one string that is the name without the white space at its ends |
| StoreCalls.AnswerMeans | internal/app/room_service.go:21-220 | for every call that runs alone, the exact condition for done, bad request, not found and conflict, in terms of the rows and roles; the rest is forbidden. In particular an owner kicks any other member, an admin plain members, and nobody else kicks anybody |
| StoreCalls.RefusedChangesNothing | internal/app/room_service.go:21-220 | a call that is not done changes no table |
| StoreCalls.CallRoles | internal/app/room_service.go:21-181 | after a call that is done, the role of every user in every room: which call gives it, changes it or takes it |
| StoreCalls.CallInvites | internal/adapter/outbound/postgres/invite_repo.go:21-75 | after a call that is done, every invite: written pending, accepted, declined, gone with its room, or as before |
| StoreCalls.CallRooms | internal/app/room_service.go:21-220 | after a call that is done, every room: created with its kind, owner and trimmed name, renamed and nothing else, opened as a DM, deleted, or as before |
| StoreHistory.ContinueLawful | internal/app/room_service.go:59-181 | every further statement of a call in progress keeps the table invariants, whatever other calls did since it read |
| StoreHistory.HistoryEvolves | internal/adapter/outbound/postgres/room_repo.go:21-172 | over any part of any interleaved history ids never come back, rooms keep owner and kind, invites change only from pending and go only with their room |
| StoreHistory.OwnerRoleNeverForged | internal/app/room_service.go:138-181 | in every interleaved history a row with the owner role belongs to the room's owner |
| StoreHistory.OwnerNeverChanges | internal/adapter/outbound/postgres/room_repo.go:21-27 | a room keeps its owner and kind while it exists, and its id never comes back |
| StoreAuthority.KickAuthority | internal/app/room_service.go:157-181 | in every interleaved history a member is removed by a kick only after somebody else called for it whose row was owner or admin, and if admin, the target was a plain member when it was checked |
| StoreAuthority.RoleAuthority | internal/app/room_service.go:138-155 | in every interleaved history a role is written only after a member called for it who had the owner role or owned the room, and it is never the owner role |
| StoreAuthority.RenameAuthority | internal/app/room_service.go:203-220 | in every interleaved history a room is renamed only after its owner or an admin of the site called for it, to what they wrote without the white space at its ends, which is not empty |
| StoreAuthority.DeleteAuthority | internal/app/room_service.go:48-53 | in every interleaved history a room goes only by the call of its owner or of an admin of the site |
| StoreAuthority.AnswerAuthority | internal/app/room_service.go:90-113 | in every interleaved history an invite is accepted, or declined, only after its invitee called for just that |
| StoreOwners.OwnerIsDemotedByJoining | internal/adapter/inbound/ws/hub.go:146-147 | after any history, the owner of a public or voice room who joins it over the socket is left with the member role |
| StoreOwners.OwnerRowAfter | internal/app/room_service.go:21-181 | after any statement of any call, while the room is there, a user has its owner role iff the statement was the owner row of its creation, or the user had it and the statement did not upsert, delete or rewrite the user's row |
| StoreOwners.OwnerRowIff | internal/app/room_service.go:21-181 | in every interleaved history a user has the owner role of a room iff the row of its creation was written and no such statement came after it |
| StoreOwners.OwnerKeptIff | internal/app/room_service.go:88-181 | from a moment when the role is held to any later one, it is held then iff no such statement came in between: once lost it never comes back |
| StoreOwners.TasksStem | internal/app/room_service.go:21-220 | every statement that runs belongs to a call that was made before |
| StoreOwners.OwnerLostToCall | internal/app/room_service.go:88-181 | whoever lost the owner role lost it to a socket join or an accepted invite of their own, or to a role change or kick aimed at them |
| StoreOwners.OwnerKeepsRoleIff | internal/app/room_service.go:88-181 | a call that runs alone takes the role from an owner iff it is their own join of the public or voice room, their own acceptance of a pending invite, or their own role change to another role; no kick does |
| StoreOwners.OwnerCanStepDown | internal/app/room_service.go:138-181 | an owner's SetRole on themselves succeeds in a room of any kind, and an admin's kick of them then succeeds |
| StoreOwners.OwnerAcceptsOwnInvite | internal/app/room_service.go:59-102 | the owner of a private room can invite themselves, and accepting writes the member role over the owner role |
| StoreHistory.MembersTraceToOwner | internal/app/room_service.go:59-102 | from each member of a private room a finite chain of accepted invites leads to the owner; each was written by a statement of the history earlier than the one before, when its inviter had been in the room as owner or member and, unless the owner, had already accepted the next invite of the chain |
| StoreHistory.InvitesAreUnique | migrations/005_room_invites.sql:8 | at any time a room has at most one invite for a user |
| StoreHistory.AnswersAreFinal | internal/adapter/outbound/postgres/invite_repo.go:51-75 | an answered invite never changes again and goes only with its room |
| StoreInvites.StatusByAnswer | internal/adapter/outbound/postgres/invite_repo.go:51-75 | in every interleaved history an invite is accepted iff an acceptance ran while it was pending, and declined iff a refusal did |
| StoreInvites.DeclinedStaysOut | internal/app/room_service.go:104-113 | from a refusal on, while the room is there, the invite stays declined and its invitee, unless the owner, is not a member |
| StoreHistory.OnlyInviteesEnter | internal/app/room_service.go:98-101 | apart from its owner, a private room is entered only by the last statement of an accepted invite |
| StoreHistory.RemovedNeverReturns | internal/app/room_service.go:157-181 | in every interleaved history a non-owner removed from a private room is never a member of it again |
| StoreDMs.AtMostTwoInDM | internal/adapter/outbound/postgres/friend_repo.go:131-137 | in every interleaved history a DM room has at most two members |
| StoreDMs.OpeningKeepsUniqueIff | internal/adapter/outbound/postgres/friend_repo.go:108-140 | inserting a DM keeps one room per pair iff the pair has none at that moment |
| StoreDMs.DMsStayUnique | internal/adapter/outbound/postgres/friend_repo.go:108-140 | with lookup and insert as one step, two users never share two DM rooms |
| StoreDMs.OneDMPerPair | internal/adapter/outbound/postgres/friend_repo.go:108-140 | then, while a DM room keeps both users, asking from either side at any later time returns that room and changes nothing, and nobody else is in it |
| StoreDMs.RacingCallsDuplicate | internal/adapter/outbound/postgres/friend_repo.go:108-140 | two calls that both look before either inserts open two rooms for the pair |
| HubStore.StoreIsHistory | internal/adapter/inbound/ws/hub.go:136-162 | the statements of a server run, those of the hub's joins included, are a history of the store |
| HubStore.RoomOrigin | internal/adapter/inbound/ws/hub.go:136-175 | every client of a room is there since a join of its own that was admitted on the room as read first and the membership as read last, and has not been out since |
| HubStore.EntrantHasRow | internal/adapter/inbound/ws/hub.go:144-162 | under every interleaving, when a client enters a room that is there its user has the member role in a public or voice room, is a member of a DM, and is a member or the owner of a private room |
| HubStore.PrivateClientsBelonged | internal/adapter/inbound/ws/hub.go:154-163 | whoever the hub has in a private room was its owner or a member when the hub let them in |
| HubStore.PrivateClientsTraceToOwner | internal/adapter/inbound/ws/hub.go:154-163 | and a chain of accepted invites led from their user to the owner then |
| HubStore.StillBelongsIff | internal/adapter/inbound/ws/hub.go:154-163 | while the client stays and the room exists, its user belongs to the room iff it is the owner or no kick of it has run since it was let in |
| HubStore.KickedStillHears | internal/app/room_service.go:157-181 | any run in which a member has a client in the room continues with the owner's kick of the member, after which the client is still in the room and is offered its next message |
| HubStoreWitness.KickedGuestHears | internal/app/room_service.go:157-181 | a run from the empty server: a guest is invited, accepts, joins, is kicked, and still hears the room |
| MessageRepos.MessageRepo.Save | internal/adapter/outbound/postgres/message_repo.go:22-29 | the message is inserted; a used id or a missing room is refused |
| MessageRepos.MessageRepo.UpdateContent | internal/adapter/outbound/postgres/message_repo.go:87-99 | the content of an existing message changes and it counts as edited; a missing one is not found |
| MessageRepos.MessageRepo.ListBefore | internal/adapter/outbound/postgres/message_repo.go:33-73 | the result is a page: the room's ids below the cursor in falling order, none skipped, as many as the limit allows, with their messages |
| MessageRepos.MessageRepo.History | internal/app/message_service.go:29-34 | the page for a limit from 1 to 100, and for 50 with any other limit, with its length |
| PagingModel.PageIsUnique | internal/adapter/outbound/postgres/message_repo.go:49-55 | the store, room, cursor and limit determine the page |
| PagingModel.HistoryLength | internal/app/message_service.go:29-34 | a page has as many messages as a limit from 1 to 100 says, for any other limit 50, or all there are below the cursor if these are fewer |
| PagingModel.PageAfterEdit | internal/adapter/outbound/postgres/message_repo.go:87-99 | an edit changes no page |
| PagingModel.PageAfterDelete | internal/adapter/outbound/postgres/message_repo.go:101-104 | a deletion takes its message out of a page and keeps every other; a page that did not list it stays the same |
| PagingModel.PageAfterSave | internal/adapter/outbound/postgres/message_repo.go:22-29 | a new message is the only one that may enter a page, and only below the cursor in its own room |
| PagingModel.PagingIsStable | internal/adapter/outbound/postgres/message_repo.go:33-73 | whatever changes between the pages, ids come in strictly falling order, each listed message was there when its page was read and is listed once, and a message there throughout a finished reading is listed |
| PagingModel.FixedStoreComplete | internal/app/message_service.go:29-34 | on a store that does not change a finished reading lists exactly the room's messages |
| PagingModel.FixedStoreTerminates | internal/app/message_service.go:29-34 | n full pages need n times the limit of messages in the room, so reading it ends |
| PagingModel.NewestFirstIff | internal/adapter/outbound/postgres/message_repo.go:31-55 | for any cursor, the pages are newest first with nothing newer left out, whatever the limit, iff the ids of the room below the cursor rise with the time of sending |
| PagingModel.ScrollsNewestFirstIff | internal/app/message_service.go:29-34 | reading a fixed room to the end, with any limit, lists its messages newest first iff all its ids rise with the time of sending |
| PagingModel.OlderIsListedFirst | internal/app/chat_service.go:26-34 | two messages whose random ids fall: the latest page shows the older one, or shows it first |

## Left out

- HTTP handlers, routing, CORS, cookies, JSON encoding, authentication, configuration and deployment: plumbing around the modelled parts.
- WebSocket reads, writes and pings, and the write pump's end on an error: the pumps appear only as receives from and errors sent to the queue.
- Redis itself: a stored subscription receives each later publication of its room once; messages a subscription may get before it is stored, messages its client library drops, reconnections and publish errors are not modelled.
- The context branch of Subscribe: the hub passes a context that is never cancelled.
- The expiry of a presence mark after 45 seconds, which nothing renews, and failures to set or delete it.
- Usernames, display names, avatars and edit times: the messages of the model carry user ids only.
- Store answers to the hub are parameters of its events: those of a join are tied to the store in `HubStore`, those of a save are free.
- Unknown message types: the hub ignores them, so they would be steps that change nothing.
- Go's nested maps are maps of sets, and a `*redis.PubSub` pointer is an index: aliasing of the inner maps is not captured.
- User deletion and its cascades, which remove invite rows and would break the invite histories; the users table and the foreign keys to it.
- Friendships, tags, unread counts and room listings: thin queries.
- Transactions other than GetOrCreateDM's, database failures and retries: a statement succeeds or is refused by a constraint; a call may stop before any of its later statements.
- Generated uuids are assumed new, and message ids are assumed not to be the nil uuid.
- Validation of message content on save and edit, and authorship of edits.
- RateLimitModel.KeysAreIsolated: like everything about the limiter, it is stated for capacity at least 1, a refill period of at least 2 ns and no overflow of the token count.
- HubVoice.VoiceViewsAgree: usernames in the voice messages are not modelled; the view is by user id.
