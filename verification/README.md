# Webrockets: message delivery, routing and brokers

A Dafny model of the parts of the webrockets server that decide which message reaches which
connection, with proofs about them. `dafny verify dfyconfig.toml` checks the whole project.

**Delivery** (`Delivery*.dfy`) is a transition system. One event is one operation that the source
performs atomically: a registration, one operation on a concurrent map, one `try_send`, one receive,
one write, one member visited by a broadcast, one entry sent by a spill task, one group visited by a
removal. Connection lifecycles, writers, callbacks, broadcasts, spill tasks and removals interleave
freely. A `join` cannot enter a group whose members a broadcast is visiting, because it needs the write
lock of the group's entry; `leave` and `remove` can. The results hold at every state of every run.

- What was sent to a connection is read off the events: its sends, and the visits of broadcasts that find
  it an included member. Its channel accepts exactly that, in that order, and each copy is in exactly one
  counted place; none is dropped while the writer lives.
  Whatever ends a writer (an abort, a failed write, a written Close, the end of its channel), what it has
  lost by any later time is exactly what was unwritten at that moment. It has written all that was ever
  sent if and only if nothing was then in its queue or, unless it was writing a Close, in its hand, no
  broadcast or spill task held a copy, and nothing was sent later. The ordinary end of a connection aborts
  the writer and can lose a full queue; a writer that outruns the abort until nobody can send any more is
  sure to have written everything.
- A broadcast carries the message, list and exclusion it was asked for with, and visits its members one by
  one. From its request to its end a connection gets one copy for each position of the list during which
  it was registered, a member and not excluded, never two, and never one for a group it did not join. The last of these holds in all runs with at most n registrations if and only if n is at most 2^64,
  the number of ids: the registration after that gets the first id again and with it the messages.
- The order of the sends is the order of the writes in every run with at most n messages for a connection
  if and only if n is at most 10001, one more than the queue holds. With 10002 a run exists in which a
  spilled message is overtaken.
- A Close is the last frame written. After removal an id is in exactly the groups that a callback still
  running joined it to since its sender was dropped, and that neither a leave nor the removal took it out
  of again; such late joins bring no messages.
- Nothing is stuck for good: spill tasks, broadcasts and lifecycles can always be brought to their end, a
  send or leave never waits, and a join waits only for broadcasts at its group, which nobody can enter
  while it is visited.

**The store, connections and chat handlers** (`ChannelStore.dfy`, `Connections.dfy`, `ChatHandlers.dfy`)
are classes that change their state in place, each operation taken as a whole, with exact contracts.
A connection's `join`, `leave` and `groups` (`src/connection.rs:285-322`) are the store's operations on the
own id behind two checks, first for the store and then for the id; they have no rows of their own.
`Rooms.dfy` interleaves the chat handlers operation by operation.

**Routing** (`Routing.dfy`, `RoutingOrder.dfy`, `Routes.dfy`) relates the nested insertion-ordered table
to the flat log of bindings it was built from. The documentation says that handlers are matched in
registration order (`docs/src/content/docs/guides/pattern-matching.md:178`). The code groups bindings by
key. The callbacks see the documented order for every message if and only if no binding is overtaken by
one with another handler or while its handler has the matched key removed. A binding overtakes an earlier
one if its key appeared first and both are live, that is, have no earlier wildcard on their key.
Registering the live bindings of each key together is enough.

**The receive loop** (`ReceiveLoop.dfy`) starts exactly the callbacks of a pure function of the frames.
A schema in front of a handler keeps it from starting on what it rejects. The documentation lets the
generic handler take messages that fail validation
(`docs/src/content/docs/guides/pattern-matching.md:171-174`); the code only logs the error. The two differ
exactly for a text whose chosen handler rejects it while a generic handler that accepts it is set.

**Brokers** (`Broker.dfy`): the JSON form of a broker message, the fan-out to any number of servers, and
both listeners' reconnect machine. **Codecs** (`Utf8.dfy`, `ClosePayload.dfy`, `Cookies.dfy`): UTF-8,
the payload of a Close, and the cookie header.

## Model

| member | source | states |
|---|---|---|
| DeliveryLedger.Conservation | src/channel_store.rs:86-111 | at every state of every run each accepted copy is written, with the writer, queued, held by a broadcast or spill, dropped with the receiver or refused after it; while the writer lives none is dropped or refused |
| DeliverySent.AcceptedExactly | src/channel_store.rs:86-103 | a channel has accepted, in order, exactly one copy for each send on its connection and for each broadcast visit that found it a registered, included member |
| DeliverySent.SendsExactly | src/connection.rs:164-174 | the direct copies a channel has accepted are the messages of the Send events of its connection, one each, in order |
| DeliverySent.SentIsConserved | src/connection.rs:164-174 | conservation of what the events sent, not only of what the channel noted |
| DeliveryEnds.NaturalEndLosesNothing | src/server.rs:259 | a writer that outran its abort to the end of the channel has written every copy sent as often as it was sent |
| DeliveryLoss.EndsExactly | src/server.rs:457-469 | the events that end a writer are its abort, the end of its channel, a failed write and a written Close, and no others; each leaves its own reason |
| DeliveryLoss.LossExactly | src/server.rs:253-282 | from the moment a writer ends, at every later state, it has lost exactly what was unwritten then, and has written all that was queued if and only if that is nothing |
| DeliveryLoss.CompleteExactly | src/server.rs:253-282 | after that it has written all that was sent if and only if nothing was left behind, no broadcast or spill held a copy at the end, and nothing was sent since |
| DeliveryLoss.AllWrittenExactly | src/channel_store.rs:86-111 | at every state all that the events sent is written if and only if nothing is queued, in hand, deferred, lost or refused |
| DeliveryEnds.WriterEndsExactly | src/server.rs:457-469 | a stopped writer has lost exactly what it had not written of the queue order; it saw the end of the channel only after an abort was requested |
| DeliveryEnds.ReaderEndDrops | src/server.rs:457-469 | from every live state the ordinary end can drop everything in the writer's hand and in the queue |
| DeliveryEnds.ReaderEndLosesAll | src/server.rs:457-469 | for every n up to 10000, a run in which n messages are sent, none is written and all are lost |
| DeliveryEnds.AbandonedStep | src/server.rs:259 | once there is no sender, handle or deferred copy for a channel there never is one again, and nothing more is offered to it |
| DeliveryLedger.WrittenInOrder | src/server.rs:253-282 | written frames are a prefix of the enqueue order, and of the send order if the queue was never full; the queue never exceeds 10000 |
| DeliveryLedger.CloseIsTerminal | src/server.rs:273-279 | a written Close is the only one, the last frame, and preceded by all that was queued ahead of it |
| DeliveryLedger.RunSound | src/server.rs:253-282 | every reachable channel keeps its bound and the relation of queue, writer, written, lost and refused copies; senders point to registered channels with that id; deferred copies exist only after a full queue |
| DeliveryLedger.HeldStep | src/channel_store.rs:94-111 | how one event changes the copies that broadcasts and spill tasks hold for a connection |
| DeliveryOrder.OrderExactly | src/server.rs:22 | all runs that send a connection at most n messages write them in the order of the sends if and only if n is at most 10001 |
| DeliveryOrder.OrderedWithinBuffer | src/server.rs:22 | up to 10001 messages sent are written in the order in which they were sent, in every interleaving |
| DeliveryOrder.Overtaken | src/connection.rs:164-174 | for any two different messages, a run that writes 10002 messages with those two in the reverse of their order of sending |
| DeliveryOrder.CatchUp | src/server.rs:259-272 | a writer with no Close before it can write everything queued, in queue order |
| DeliveryOrder.MakeRoom | src/server.rs:259-281 | every channel can be brought to a state in which it does not answer Full, without touching any spill |
| DeliveryOrder.SpillCanFinish | src/channel_store.rs:105-111 | from every reachable state a spill task can send all its entries |
| DeliveryCasts.CastRequested | src/connection.rs:243-262 | from its request on, a broadcast has the message, list and exclusion asked for |
| DeliveryCasts.CastHasRequest | src/channel_store.rs:73-79 | every broadcast there is was asked for by an earlier request with just these |
| DeliveryCasts.GroupCopies | src/channel_store.rs:81-103 | every group copy at a connection carries the message of an earlier request that names this group at this position and does not exclude the connection, follows a join of the connection to it, and is the only one for that position |
| DeliveryReuse.OnlyJoinedExactly | src/channel_store.rs:26 | in all runs with at most n registrations group copies are offered only to connections that asked to join the group, if and only if n is at most 2^64 |
| DeliveryReuse.CrossDelivery | src/channel_store.rs:26-27 | a run of 2^64 + 1 registrations in which a message for a group of the first connection is queued for the last, which never joined it |
| DeliveryCasts.PositionExact | src/channel_store.rs:86-102 | registered, included by the request and a member whenever the broadcast is at a position: the requested message exactly once for it; never so: not at all |
| DeliveryCasts.BroadcastExact | src/channel_store.rs:73-103 | with registration and membership steady from the request to the end of an interleaved broadcast, the requested message is offered as often as the list has positions naming a group of the connection, and never if the request excludes it |
| DeliveryCasts.VisitIsFresh | src/channel_store.rs:86-94 | the copy of a visit is new to the channel and for a group its connection joined |
| DeliveryLifecycle.MembershipIsOwn | src/channel_store.rs:41-49 | the membership of an id in a group changes only by joins, leaves and removal of that id from that group |
| DeliveryLifecycle.LedgerIsMembership | src/channel_store.rs:41-49 | successful joins minus successful leaves are 1 for a member and 0 otherwise, over any run before removal reaches the connection's groups |
| DeliveryLifecycle.CleanupExactly | src/channel_store.rs:66-71 | after removal an id has no sender, and is in a group if and only if it joined it since and was not taken out again by a leave or by the removal |
| DeliveryLifecycle.Cleanup | src/channel_store.rs:66-71 | in particular, if no callback of the connection joined meanwhile its id is in no group |
| DeliveryLifecycle.CleanupShrinks | src/channel_store.rs:66-71 | a group that the connection does not rejoin and nobody else joins or leaves meanwhile loses exactly that id |
| DeliveryLifecycle.LateJoinsHarmless | src/channel_store.rs:86-93 | whatever is joined after the sender is gone, no broadcast copy is offered to the connection any more |
| DeliveryLifecycle.LateJoinStays | src/server.rs:466-472 | a run in which a join after removal leaves the id in a group |
| DeliveryEnds.CanBeRemoved | src/server.rs:457-473 | from every reachable state the lifecycle of a connection can be brought to its end |
| DeliveryOpen.CanAsk | src/connection.rs:155-175 | a send or leave of a callback, a registration and the start of a broadcast can be the next event of every run |
| DeliveryOpen.VisitedOnlyShrinks | src/channel_store.rs:86-87 | while a broadcast visits a group its members can only become fewer |
| DeliveryOpen.CanJoin | src/channel_store.rs:41-43 | every run can be continued to one in which a callback's join has entered its group |
| DeliveryOpen.CastCanFinish | src/channel_store.rs:81-103 | every run can be continued to one in which a broadcast has been through its whole list |
| DeliveryOpen.RunPlace | src/channel_store.rs:81-111 | a broadcast that is done has been through its whole list and has handed over every copy it held |
| DeliveryOpen.CloseCanBeWritten | src/server.rs:259-279 | a writer that meets a Close can write all ahead of it and the Close, and drops the rest |
| DeliveryOpen.ChannelCanEnd | src/server.rs:259 | a run in which a writer writes a message and then sees the end of its channel |
| Delivery.StepChannel | src/channel_store.rs:93-100 | each event changes a channel in one of nine ways, and only the channel it concerns |
| Delivery.StepTasks | src/channel_store.rs:79-111 | each event advances at most one broadcast or spill and starts at most one |
| Membership.IdsNeverReused | src/channel_store.rs:25-29 | an id determines its registration among the first 2^64 |
| Membership.IdsWrap | src/channel_store.rs:26 | the registration 2^64 later gets the same id |
| Membership.SizesBalance | src/channel_store.rs:51-64 | the sizes of all groups and the group counts of all ids have the same total |
| Membership.OccurrencesExactly | src/channel_store.rs:81-91 | a list reaches an id once per position that names a group holding it, repetitions included |
| ChannelStores.Sender.TrySend | src/channel_store.rs:94-100 | the three answers of a bounded channel and what each leaves in the queue |
| ChannelStores.Sender.SendListener | src/server.rs:253-282 | the frames written are the longest prefix of the queue up to a failed write or a Close, and the receiver is dropped |
| ChannelStores.ChannelStore.Register | src/channel_store.rs:25-29 | the n-th registration gets the n-th id and only adds that sender; a new sender keeps senders distinct |
| ChannelStores.ChannelStore.RegisterWithGroup | src/channel_store.rs:31-39 | registration followed by joining the default group |
| ChannelStores.ChannelStore.Join | src/channel_store.rs:41-43 | adds the id to the group, creating it if needed; true if it was not a member |
| ChannelStores.ChannelStore.Leave | src/channel_store.rs:45-49 | takes the id out of that group only and keeps the group; true if it was a member |
| ChannelStores.ChannelStore.GetGroups | src/channel_store.rs:51-57 | each group holding the id, once |
| ChannelStores.ChannelStore.GroupSize | src/channel_store.rs:59-64 | the number of members, 0 for an unknown group |
| ChannelStores.ChannelStore.Remove | src/channel_store.rs:66-71 | takes the sender and all memberships of the id, and nothing else |
| ChannelStores.ChannelStore.VisitGroup | src/channel_store.rs:86-102 | one pass over a group gives each registered, included member one more copy |
| ChannelStores.ChannelStore.Broadcast | src/channel_store.rs:73-112 | each registered id is offered its quota of copies: those that fit are queued, the rest deferred, a closed channel keeps none |
| ChannelStores.GotMore | src/channel_store.rs:93-100 | one more offer keeps queued plus deferred plus dropped equal to offered |
| Connections.Connection.Send | src/connection.rs:155-175 | error order, the three outcomes of the offer, and the message left to a spawned send when the queue is full |
| Connections.CarriesExactly | src/connection.rs:158-163 | strings are sent as text, bytes as they are, anything else is refused |
| Connections.Connection.Close | src/connection.rs:199-219 | the same for a Close with code and UTF-8 reason |
| Connections.Connection.Broadcast | src/connection.rs:243-262 | the message type is checked before the store; exclusion is of the own id |
| ChatHandlers.ChatJoin | examples/chat/server.py:63-70 | only a connection in no room enters one and the room is told; otherwise only the refusal is sent |
| ChatHandlers.ChatLeave | examples/chat/server.py:74-82 | a connection in no room is told so; otherwise it is told, leaves one of its rooms only, and the room is told |
| ChatHandlers.ChatMessage | examples/chat/server.py:85-91 | everybody else is offered one copy per group in common with the sender, the sender none; with one room that is one copy for each other member |
| ChatHandlers.DjangoJoin | examples/django_chat/chat/websockets.py:43-48 | afterwards the connection is in the requested room only, and nobody else's rooms changed |
| Rooms.OneRoom | examples/chat/server.py:63-82 | in every interleaving of both protocols and of removals every connection is in at most one room |
| Rooms.JoinedRoom | examples/django_chat/chat/websockets.py:43-48 | when a join handler of either protocol finishes, the connection is in exactly the room that the last request made of it named |
| Rooms.LeftRoom | examples/chat/server.py:74-81 | when a leave handler of either protocol finishes, the last request was a leave and the connection is in no room |
| Rooms.OthersStay | examples/django_chat/chat/websockets.py:43-48 | no event of one connection touches the rooms or handler of another |
| Rooms.DjangoJoinWorks | examples/django_chat/chat/websockets.py:43-48 | in every run, a Django join asked of an idle connection can bring it into exactly that room |
| Rooms.ChatJoinWorks | examples/chat/server.py:63-70 | in every run, a chat join can bring a connection in no room into that room, and leaves any other where it is |
| Rooms.ChatLeaveWorks | examples/chat/server.py:74-81 | in every run, a chat leave asked of an idle connection can take it out of its room |
| Rooms.PickWorks | examples/chat/server.py:79-81 | a chat leave that has begun can end, also when a removal has emptied the second answer |
| Rooms.DjangoLeaveWorks | examples/django_chat/chat/websockets.py:79-93 | in every run, a Django leave can take a connection out of its room |
| Rooms.OccurrencesShared | src/channel_store.rs:81-91 | a list of different groups reaches an id once per group it is in |
| Rooms.MessageReachesGroups | src/channel_store.rs:81-91 | a message to the own groups without the sender costs one copy per group in common |
| Rooms.MessageReachesRoom | examples/chat/server.py:86-91 | a message, asked for and broadcast at different moments of any run of both protocols, costs one copy for each unexcluded member the asked room has at the broadcast and none for anybody else |
| Routing.FindHandler | src/server.rs:338-349 | the nested loops with early return compute the recursive search |
| Routing.ContainsIsBound | src/route.rs:322-331 | the lookup of a pair in the nested map answers whether the log binds it |
| Routing.InsertIsAppend | src/route.rs:345-352 | inserting a free pair into the nested map is appending a binding to the log |
| Routing.InsertAgain | src/route.rs:345-352 | inserting a pair again with its own handler changes nothing |
| Routing.BindingsArePermanent | src/route.rs:345-352 | later registrations only add rows behind the rows and cells behind the cells of a table |
| RoutingOrder.SearchIsFirstMatch | src/server.rs:338-349 | the two-level search is the first match in the log grouped by key in order of first appearance |
| RoutingOrder.SearchExactly | src/server.rs:338-349 | nothing is found exactly if no binding fits the message, and otherwise the fitting one whose key appeared first and is earliest among those of its key |
| RoutingOrder.MatchesExactly | src/route.rs:21-31 | a pattern matches any value, its string, or its whole number, and no other kind of value |
| RoutingOrder.WinnerFound | src/server.rs:339-346 | the handler found is that of the matching binding whose key appeared first and which is earliest within its key |
| RoutingOrder.RegistrationOrderExactly | docs/src/content/docs/guides/pattern-matching.md:178 | for every message the callbacks see the documented choice if and only if no binding overtakes one with another handler or with a removed key |
| RoutingOrder.BindingOrderExactly | src/server.rs:338-349 | the same binding is chosen, key included, for all messages if and only if the live bindings of each key are contiguous; that suffices for the documented order |
| RoutingOrder.OvertakingShows | src/server.rs:338-349 | wherever one binding overtakes another, a message on which the two orders choose those two bindings |
| RoutingOrder.RegistrationOrderFails | docs/src/content/docs/guides/pattern-matching.md:178 | for any two different handlers, three bindings and the message {"a": 2, "b": 1} on which the documented choice is not made |
| RoutingOrder.WildcardShadows | src/route.rs:21-31 | with a wildcard on a present key the choice never lies behind it |
| Routes.WebsocketRoute.Taken | src/route.rs:322-331 | the check loops answer whether any pair of the match is bound |
| Routes.WebsocketRoute.InsertAll | src/route.rs:345-352 | the insertion loops extend the log by exactly the pairs of the match, key by key |
| Routes.WebsocketRoute.Receive | src/route.rs:302-366 | registration is all or nothing with the three errors told apart, binds callback, schema and key removal as asked in the order in which the match names its pairs, and never touches the snapshot |
| Routes.WebsocketRoute.FrozenHandlers | src/route.rs:202-209 | the first call fixes the table, later calls return the same |
| Routes.Drive | src/server.rs:445-453 | through any sequence of registrations and connections, every connection gets the table of the bindings registered before the first connection, and the generic handler registered before itself |
| Routes.GivenExactly | src/server.rs:445-453 | each connection is given the table and the generic handler that the calls before it have left, in their order |
| ReceiveLoop.GenericExactly | src/server.rs:371-388 | the generic handler starts for a text frame if and only if it is UTF-8, no registered binding matches and a generic handler is set whose schema accepts |
| ReceiveLoop.MatchedExactly | src/server.rs:350-370 | a matched text starts the winning binding's handler if its schema accepts what is handed over, and nothing otherwise |
| ReceiveLoop.FallbackExactly | docs/src/content/docs/guides/pattern-matching.md:171-174 | the starts are those of the documented fallback if and only if no winning binding rejects a text that the generic handler accepts |
| ReceiveLoop.FallbackFails | src/callback.rs:56-66 | a matched message that its schema rejects starts nothing although a generic handler without schema is set |
| ReceiveLoop.StripsMatchedKey | src/server.rs:352-362 | a handler that removes the key gets the object without exactly the member that chose it |
| ReceiveLoop.ReceiveListener | src/server.rs:284-408 | the callbacks started are those of the frames before the first Close or error, in order, then the farewell of a Close |
| ReceiveLoop.FrameByFrame | src/server.rs:284-408 | each frame before the end starts what it starts alone, behind what the frames before it start |
| ReceiveLoop.KindsOfStarts | src/server.rs:322-405 | text starts at most one pattern or generic handler, binary data at most the generic callback, other frames nothing |
| ReceiveLoop.BinaryExactly | src/server.rs:393-402 | in every stream the generic callback starts once per binary frame before the end, in order, with its bytes and without a schema, and not at all if none is registered |
| ReceiveLoop.DisconnectOnceAtEnd | src/server.rs:299-321 | the disconnect callback starts at most once, last, exactly if a Close ends the stream and one is registered, and with the code and reason of that Close |
| ReceiveLoop.NothingAfterEnd | src/server.rs:320 | frames after the terminator start nothing |
| ReceiveLoop.StartsGrow | src/server.rs:292-407 | the starts of a longer stream extend those of its beginning |
| Broker.PayloadRoundTrip | src/broker/broadcaster.rs:75-81 | groups and message survive encoding and decoding |
| Broker.DecodesExactly | src/broker/mod.rs:30-34 | which JSON values decode to a given broker message, as an object with both members or an array of the two |
| Broker.DecodedExactly | src/broker/redis.rs:96-99 | every decodable delivery is dispatched as one message, at the place given by the number of decodable deliveries before it |
| Broker.PublishedIsDispatched | src/broker/redis.rs:96-99 | payloads of published messages are dispatched as those messages, in order |
| Broker.AllDecodedExactly | src/broker/amqp.rs:133-136 | over all sessions of a listener exactly the decodable deliveries are dispatched, one session after the other |
| Broker.Dispatch | src/broker/mod.rs:36-44 | a broker message is a broadcast that excludes nobody |
| Broker.FanOut | src/broker/mod.rs:36-44 | any receptions of any messages by any servers, in any order: each connection is offered, in its server's order, the quota of each message that server received |
| Broker.ReceivedOnce | src/broker/mod.rs:36-44 | one reception of one message gives each connection of that server its quota |
| Broker.WaitDoubles | src/broker/redis.rs:47-48 | doubling under the cap turns the n-th wait into the next one |
| Broker.WaitNeverShrinks | src/broker/redis.rs:36-48 | waits do not decrease and stay below the cap |
| Broker.TotalWaitClosed | src/broker/amqp.rs:95-111 | total of the first n waits in a row, below and above the cap |
| Broker.FailuresCost | src/broker/redis.rs:36-48 | n failures in a row, at the start or after a session, add exactly that total to the listener's waits |
| Broker.RedisFailures | src/broker/redis.rs:40-77 | each of the three failures of an attempt counts as one, and n of them wait for the total of n |
| Broker.Consume | src/broker/redis.rs:79-112 | every decodable message of a session is dispatched once, in arrival order, and reaches each connection by its quota |
| Broker.RedisListen | src/broker/redis.rs:33-114 | the waits and the dispatched messages are those of the attempts made until shutdown, with three ways to fail and a reset after each session |
| Broker.AmqpListen | src/broker/amqp.rs:93-155 | the same machine with one failure point |
| Utf8.DecodeEncode | src/server.rs:308 | decoding recovers every encoded string |
| Utf8.EncodeDecode | src/server.rs:323 | only encodings of strings decode |
| Utf8.LossyMarks | src/server.rs:313 | lossy decoding agrees with strict decoding where that succeeds, marks what is ill-formed, and is empty only for empty input |
| Utf8.LossyExactly | src/server.rs:313 | on arbitrary bytes a character stands for itself, and where none begins one replacement stands for the longest beginning of a character, or for one byte |
| Utf8.AsInTheStandard | src/server.rs:308 | the bytes of every character have the form and carry the number that section 3 of RFC 3629 gives |
| ClosePayload.RoundTrip | src/client/mod.rs:92-102 | client and server recover every code and reason of a Close |
| ClosePayload.OnTheWire | src/client/mod.rs:92-102 | the code is in the first two bytes, most significant first, and the reason behind it |
| ClosePayload.OffTheWire | src/server.rs:302-318 | on arbitrary bytes the code is that of the first two or 1005, and the two ends differ as stated on a reason that is not UTF-8 |
| ClosePayload.EndsAgree | src/server.rs:302-318 | on arbitrary bytes both agree on the code, and on the reason exactly for an empty payload or a code followed by UTF-8 |
| ClosePayload.PayloadIsCanonical | src/client/mod.rs:94-98 | a payload with a code and UTF-8 reason is the encoding of what is read from it |
| Cookies.Parse | src/connection.rs:76-87 | the loop adds the trimmed pieces that contain an equals sign, later names replacing earlier ones |
| Cookies.LastPieceWins | src/connection.rs:76-87 | for arbitrary pieces a name has the trimmed value of the last piece that binds it |
| Cookies.NoPieceBinds | src/connection.rs:80-82 | a name that no piece with an equals sign binds is not bound |
| Cookies.SplitExactly | src/connection.rs:79 | the pieces are what lies between the separators |
| Cookies.TrimExactly | src/connection.rs:80 | trimming takes off all white space at both ends and nothing else |
| Cookies.RoundTrip | src/connection.rs:76-87 | parsing printed pairs gives the map in which the last binding of each name wins |
| Cookies.LastWinsMeans | src/connection.rs:83 | a name is bound to the value of its last pair |

## Left out

- HTTP upgrade, TLS, TCP, the router and the fastwebsockets framing: frames are a datatype, the reader a sequence of frames or an error.
- Python callbacks, the event loop and the inside of Pydantic: a callback is an entry in the list of starts, a schema a predicate on JSON text.
- Tokio and DashMap internals: only the per-key atomicity, the read and write guards and the three answers of `try_send`. A slot that tokio has already reserved for a waiting send counts as free here.
- JSON text: parsing and printing are parameters; numbers are whole or not.
- Authentication, the client wrappers, the connections to Redis and AMQP, publishing to them.
- `asend`, `aclose`, `abroadcast`: the same offers as the synchronous forms, with the wait held by a coroutine.
- The bare `@route.receive` form, which registers the generic handler without a schema check; the decorator form is modelled.
- Headers other than the cookie, and the extraction of `Match` keys and values from Python objects.
- The remaining chat handlers (greeting, farewell, the Django messages through the broker): sends and broadcasts of the kinds modelled.
- The classes take each operation as a whole; interruptions between their parts are modelled in `Delivery.dfy` and `Rooms.dfy` on values.
- Which servers receive a publication, how often and in which order: Redis and AMQP are not part of this model, so `FanOut` takes any receptions.
- A sender registered under several ids: the class keeps it, but `ChannelStore.Broadcast` asks for one sender per id, as `handle_client` creates a channel for each registration.
