# Verified model of the framed-message networking library

A Dafny model of the connection protocol of `networking/src`, of the pieces it rests on (the byte-stack message, the
mutex-guarded queue, the accept, broadcast and update code of the server), and of the chat application built on it
(`netServer`, `netClient`), with proofs about whole runs.

`dafny verify dfyconfig.toml` checks everything.

## Layout

| file | what it holds |
|---|---|
| `Bytes.dfy` | bytes, 32- and 64-bit words, their little-endian images |
| `Messages.dfy` | the message as a typed stack over bytes: the value, runs of `<<` and `>>`, the object |
| `Framing.dfy` | the wire format, the header/body reader, the sticky-body law, chunk independence |
| `Writer.dfy` | the outgoing queue and the writes in flight; the invariant that relates them to the bytes sent |
| `Endpoint.dfy` | one end of a connection as a state machine; handshake and wire history in every run |
| `Link.dfy` | two ends joined by two byte streams; the exact handshake outcome; channel refinement |
| `Progress.dfy` | termination of failure-free runs, and delivery of everything |
| `Queue.dfy` | the queue object, and the queue under any number of interleaved threads |
| `Connection.dfy` | the connection object, each handler proved to be the step of `Endpoint` it implements |
| `Server.dfy` | which clients a server holds, over runs of accepts, closes and broadcasts |
| `SimpleServer.dfy` | the server object with the hooks of `CustomServer` |
| `SimpleClient.dfy` | the client program: sends, and one round of its receive loop |
| `Network.dfy` | one server and any number of clients: end-to-end statements |
| `Traffic.dfy` | exactly what the server tells each client, what each client sends and what it shows, in every run |
| `Refinement.dfy` | the server object takes the steps of `Network` |
| `Shown.dfy` | round trips of pings and message-to-all, in every run |

Objects that the program updates in place are classes (`Message`, `TsQueue`, `Connection`, `Server`, `Client`). Their
methods are proved to compute functions on values (`Endpoint.OnJob`, `Endpoint.OnWritten`, `Endpoint.OnReadDone`,
`Rosters.Without`, ...), and the statements about whole runs are proved about those functions; `Refinement` ties the
server object to `Network`. Fields marked as history record what the program does not store: bytes sent and received,
messages pushed and delivered.

## Assumptions

- One context thread per program (networking/src/net_client.hpp:46, networking/src/net_server.hpp:55): handlers and
  posted jobs run one at a time; posted jobs run in the order they were posted.
- Writes on one socket take effect in the order they were started, even when a message write is started while the
  handshake write is still in flight; their handlers run in that order.
- A read may take its bytes in any chunks; a write may put its bytes out in any chunks.
- A failed write puts out none of its remaining bytes, and its handler closes the socket. Once the socket is closed
  nothing leaves or arrives; handlers of operations already complete still run.
- Both ends store numbers little-endian; the id is 4 bytes, so a header is 8.
- An untampered link delivers to one end a prefix of what the other sent. Statements about a single end (`Endpoint`)
  hold whatever bytes arrive.

## Where the code does not do what one would expect

- **Sticky bodies.** A message without a body is delivered with the body of the last message that had one
  (networking/src/net_connection.hpp:128-133). `Framing.FaithfulIffBodilessFirst` gives the exact condition for faithful
  delivery, and `Shown.MessageAllAfterPing` two chat messages that fail it; `Network.RepliesAsIfFaithful` shows that the
  chat server's replies do not depend on it.
- **Early sends.** A client may send before its handshake reply is started (networking/src/net_client.hpp:83). The server
  then reads the first message header as the reply, as in the runs of `Link.EarlySendHappens`. `Link.HandshakeExact`
  gives the exact outcome, and
  `Link.EarlySendIsRejected` shows that a first id that is not a multiple of 16 is always noticed; both ids that chat
  clients send are of that kind.
- **Lost wakeups.** `wait` checks the queue and then takes the blocking mutex (networking/src/net_tsQueue.hpp:94-98); a push
  in between notifies nobody. `QueueThreads.LostWakeup` is such a run. `QueueThreads.SleepsOnElementsIffPushed` says
  exactly when: in every run that ends with the only consumer asleep, the queue is not empty if and only if some push has
  inserted since the consumer's last check. `QueueThreads.ParkedWindow` says when those pushes notified.
- **Size field.** The header size is cut to 32 bits, so a body of 2^32 - 8 bytes or more is not read back
  (`Messages.WellFormedIffShort`). It is 8, not 0, on a message that was pushed to and emptied again.
- **Id counter.** Ids increase only until the 32-bit counter wraps (`Rosters.IdsIncrease`).

## Model

| member | source | states |
|---|---|---|
| Messages.PopAfterPush | networking/src/net_message.hpp:43-87 | `>>` right after `<<` of the same type gives the value back and restores the body |
| Messages.BytesRefineTypedStack | networking/src/net_message.hpp:43-87 | any run of `<<` and `>>` in which each `>>` asks for the type on top stays in range, pops exactly the values a stack of typed values pops, and leaves exactly the bytes of the values still stacked, above whatever was there |
| Messages.PushThenPopReversed | networking/src/net_message.hpp:43-87 | any list of values pushed and then popped in reverse comes back value by value, and the body is restored |
| Messages.SizeAlongRun | networking/src/net_message.hpp:28-30 | after any in-range run the size field is the initial one if nothing was done, else (8 + body length) mod 2^32; the id never changes |
| Messages.WellFormedIffShort | networking/src/net_message.hpp:61-62 | for a message built by any in-range run, the body length a reader expects is the one the writer sends exactly when the body is shorter than 2^32 - 8 bytes |
| Messages.Message.PushBack | networking/src/net_message.hpp:43-62 | the object after `<<`: bytes appended, size field (8 + body length) mod 2^32, id kept |
| Messages.Message.PopBack | networking/src/net_message.hpp:66-87 | the object after `>>`: the last bytes taken off and returned as the value they hold, size field (8 + body length) mod 2^32 (8 when emptied), id kept |
| Framing.FaithfulIffBodilessFirst | networking/src/net_connection.hpp:128-133 | a fresh reader delivers a sequence of messages unchanged if and only if no bodiless message follows a bodied one |
| Framing.StickyLaw | networking/src/net_connection.hpp:121-158 | each message is delivered with its own header and its own body or, if that is empty, with the body delivered just before (none before the first) |
| Shown.MessageAllAfterPing | networking/src/net_connection.hpp:128-133 | a chat client that asks for a message to all after a ping is not delivered faithfully: the second message arrives with the body of the ping |
| Framing.FeedCompose | networking/src/net_connection.hpp:121-158 | feeding a then b is feeding a followed by b, from every reader state |
| Framing.ChunksDoNotMatter | networking/src/net_connection.hpp:121-158 | the reader's state and deliveries depend only on the concatenation of the chunks received |
| Framing.PrintAfterParse | networking/src/net_connection.hpp:121-158 | on any byte stream, the frames read are well formed, re-encoding them with their own bodies, followed by the frame in progress, gives the stream back byte for byte, and what was delivered is their sticky image |
| Framing.FeedEncodeAll | networking/src/net_connection.hpp:121-218 | from any message boundary and any held body, reading the encodings of any well-formed messages ends at a boundary with every frame intact and delivers their sticky image |
| Framing.RoundTrip | networking/src/net_connection.hpp:121-218 | encoded well-formed messages are read back with every header and own body, and delivered unchanged exactly when no bodiless one follows a bodied one |
| Framing.EncodingInjective | networking/src/net_connection.hpp:161-201 | different sequences of well-formed messages have different encodings |
| Framing.FeedPrefix | networking/src/net_connection.hpp:121-218 | a reader that has seen any prefix of a stream of encodings has read a prefix of the messages and delivered a prefix of their sticky image |
| Writer.SendJobKeepsInv | networking/src/net_connection.hpp:104-117 | the job posted by `Send` keeps the writer invariant: one message write in flight iff the queue is not empty, every started byte sent, lost or in flight, in order |
| Writer.OnWrittenKeepsInv | networking/src/net_connection.hpp:161-201 | so do the handlers of header, body and handshake writes, which never touch the front of an empty queue |
| Writer.WriteWordKeepsInv | networking/src/net_connection.hpp:229-241 | so does starting the handshake write, even while a message write is in flight |
| Writer.OnWriteFailedKeepsInv | networking/src/net_connection.hpp:175-198 | so does the failure of a write |
| Writer.EmitKeepsInv | networking/src/net_connection.hpp:161-201 | so does any number of bytes leaving |
| Writer.WireHistory | networking/src/net_connection.hpp:161-201 | a side that started its handshake word first has written the word, then the encodings of exactly the popped messages in push order, then a part of the front message |
| Writer.SentIsWovenPrefix | networking/src/net_connection.hpp:104-117 | in general, what was written is a prefix of the messages pushed, with the whole handshake word in the one place where its write was started |
| Endpoint.ScrambleBitwise | networking/src/net_connection.hpp:221-226 | each bit of a scrambled word is the bit 16 places above or below it in the word XORed with the key, where the respective mask lets that bit through |
| Endpoint.ScrambleIsMultipleOf16 | networking/src/net_connection.hpp:221-226 | every scrambled word is a multiple of 16 |
| Endpoint.ScrambleIsLossy | networking/src/net_connection.hpp:221-226 | scrambling is not injective |
| Endpoint.StepKeepsInv | networking/src/net_connection.hpp:104-273 | every job, handler, transfer and failure keeps the invariant of an end: writer, reader in step with the bytes received, and handshake |
| Endpoint.HandshakeSoundness | networking/src/net_connection.hpp:245-273 | in every run, whatever arrives: a server end delivers or validates only after its first 8 bytes decode to the scrambled word, validates at most once, and a wrong reply leaves it closed with nothing delivered |
| Endpoint.SingleWriter | networking/src/net_connection.hpp:104-117 | in every run no two message writes are in flight, one is exactly when the queue is not empty (unless a write failed, which leaves the end closed), and no empty queue's front is touched |
| Endpoint.FrontStays | networking/src/net_connection.hpp:161-201 | the front message stays in front until the handler of its last write pops exactly it |
| Endpoint.ClosedIsFrozen | networking/src/net_connection.hpp:136-139 | a closed end never sends or receives another byte and never reopens, however much is sent to it |
| Endpoint.DisconnectCloses | networking/src/net_connection.hpp:74-79 | when the job of `Disconnect` has run, the end is closed and never sends or receives another byte |
| Endpoint.SendsInOrder | networking/src/net_connection.hpp:104-117 | in every run, the messages passed to `Send` are, in order, those pushed to the outgoing queue followed by those whose job has not run |
| Endpoint.ServerWireHistory | networking/src/net_connection.hpp:229-241 | in every run a server end has written its word, then exactly the popped messages, then a part of the front one |
| Endpoint.ClientWireHistory | networking/src/net_connection.hpp:249-254 | the same for a client end that did not send early, whose word is the scrambled word it received |
| Endpoint.EveryWireHistory | networking/src/net_connection.hpp:104-117 | every end in every run, early or not: what it wrote is a part of its messages with the word in one place |
| Endpoint.DeliveriesOfRun | networking/src/net_connection.hpp:203-218 | past the handshake, the bytes received after byte 8 are the encodings of well-formed frames and a frame in progress, and what was delivered is the sticky image of those frames |
| Link.HandshakeExact | networking/src/net_connection.hpp:245-273 | on an untampered link the reply passes if and only if the client did not send early or its first header happens to be the scrambled word |
| Link.EarlySendHappens | networking/src/net_client.hpp:82-85 | for every message there is a run in which a client sends it before its reply: the server takes its header for the reply, and closes unless that is the scrambled word |
| Link.HeaderIsNoReply | networking/src/net_connection.hpp:221-226 | a header whose id is not a multiple of 16 is never the scrambled word |
| Link.EarlySendIsRejected | networking/src/net_client.hpp:82-85 | a client that sends early with such an id is never validated and gets nothing delivered, in any run |
| Link.ClientDeliversServerMessages | networking/src/net_connection.hpp:104-218 | in every run, with any interleaving, chunking, failure or close, what the client received after byte 8 is a prefix of the encodings of the server's messages, and it delivered a prefix of their sticky image |
| Link.ServerDeliversClientMessages | networking/src/net_connection.hpp:104-218 | the same towards the server, unless the client sent early |
| Progress.InternalStepCosts | networking/src/net_connection.hpp:104-273 | every internal step strictly decreases the work left on the link |
| Progress.WorkRunsOut | networking/src/net_connection.hpp:104-273 | in every reachable state, a run without new sends or failures takes at most as many steps as there is work left on the link |
| Progress.RunsToStuck | networking/src/net_connection.hpp:104-273 | from every state that keeps the invariant, internal steps lead to a state in which no internal step is possible |
| Progress.MildRunStaysHealthy | networking/src/net_connection.hpp:255-262 | along any run in which nothing fails, nothing is closed and the client does not send early, the reply passes and both ends stay open |
| Progress.EverythingArrives | networking/src/net_connection.hpp:87-273 | a failure-free run without early sends that can go no further has validated the client, emptied both outgoing queues, and delivered on each side the sticky image of everything the other ever pushed |
| Progress.EverythingSentArrives | networking/src/net_connection.hpp:104-218 | at the end of such a run each end has received exactly the messages that `Send` was ever called with at the other, in the order of the calls |
| TsQueues.TsQueue.PushBack | networking/src/net_tsQueue.hpp:39-47 | the element is added at the back |
| TsQueues.TsQueue.PopFront | networking/src/net_tsQueue.hpp:78-83 | the front element is removed and returned |
| QueueThreads.NoDeadlock | networking/src/net_tsQueue.hpp:39-63 | for any number of threads, in every reachable state, a chain of threads waiting for each other's mutexes has at most three, never closes, and ends in one that waits for none |
| QueueThreads.SomeoneCanGo | networking/src/net_tsQueue.hpp:39-100 | whenever a thread is inside an operation and not asleep, some thread can take a step, unless a caller pops the empty queue |
| QueueThreads.WaitReturnsNonEmpty | networking/src/net_tsQueue.hpp:93-100 | with one consumer, a check that found the queue non-empty is followed by the return of `wait`, with the element still there |
| QueueThreads.WaitEndsOnlyNonEmpty | networking/src/net_tsQueue.hpp:93-100 | from the call of `wait` on the only consumer stays inside, and whatever step takes it out, after any number of wakeups, spurious ones included, finds the queue non-empty and leaves it unchanged |
| QueueThreads.ParkedWindow | networking/src/net_tsQueue.hpp:93-100 | while the only consumer sleeps, each queued element's push has not notified yet, or did so after the last `empty()` check and before the blocking mutex was taken |
| QueueThreads.EmptyIffNoInsert | networking/src/net_tsQueue.hpp:39-57 | from an empty queue, and as long as the consumer removes nothing, the queue is empty exactly as long as no push has inserted |
| QueueThreads.SleepsOnElementsIffPushed | networking/src/net_tsQueue.hpp:93-100 | every run that ends with the only consumer asleep has a last check, which found the queue empty, and the queue is not empty now if and only if some push has inserted since |
| QueueThreads.LostWakeup | networking/src/net_tsQueue.hpp:94-98 | there is a run after which the consumer sleeps on a non-empty queue, the push is over, and nothing but a new call or a spurious wakeup can happen |
| QueueThreads.QueueIsFifo | networking/src/net_tsQueue.hpp:39-83 | used with `push_back` and `pop_front` by any number of threads, what was pushed is what was popped followed by what is queued |
| QueueThreads.BothEnds | networking/src/net_tsQueue.hpp:38-91 | a pop takes what a push at the same end put there and undoes it; `clear` empties the queue; looking changes nothing |
| QueueThreads.PopAfterLookIsSafe | networking/src/net_server.hpp:155-157 | once the only consumer has seen the queue non-empty, its next pop finds an element, whatever all other threads push in between |
| Connections.Connection.constructor | networking/src/net_connection.hpp:27-44 | a server end keeps the clock as its word and the scrambled word as its check; a client end has neither |
| Connections.Connection.ConnectToClient | networking/src/net_connection.hpp:87-100 | at a server end with an open socket the id is set, the word write started, the reply read started, and posted jobs kept; otherwise nothing changes |
| Connections.Connection.Send | networking/src/net_connection.hpp:104-117 | one job is posted; nothing else changes |
| Connections.Connection.RunJob | networking/src/net_connection.hpp:107-116 | the oldest job runs: the message is queued, and its header write started if the queue was empty |
| Connections.Connection.OnWritten | networking/src/net_connection.hpp:165-199 | the handlers of the three kinds of write, as the step of the state machine |
| Connections.Connection.OnWriteFailed | networking/src/net_connection.hpp:175-198 | a failed write closes the socket |
| Connections.Connection.OnReadDone | networking/src/net_connection.hpp:125-157 | the handlers of the three kinds of read, as the step of the state machine, adding at most one element to the incoming queue |
| Connections.Connection.OnWordRead | networking/src/net_connection.hpp:245-273 | a client scrambles and replies; a server validates or closes |
| Connections.Connection.AddToIncomingMessageQueue | networking/src/net_connection.hpp:203-218 | the temporary message goes to the back of the queue, tagged at a server, and the next header is awaited |
| Connections.Connection.OnReadFailed | networking/src/net_connection.hpp:135-140 | a failed read closes the socket |
| Rosters.MembershipConserved | networking/src/net_server.hpp:77-145 | over any run of accepts, denials, closes and broadcasts, the accepted clients are the approved ones in order; each is either held or was reported disconnected, once and never both; clients are held in acceptance order without duplicates |
| Rosters.BroadcastReachesOnce | networking/src/net_server.hpp:127-145 | a broadcast reaches each open, non-ignored client exactly once and nobody else, and removes and reports exactly the closed ones |
| Rosters.IdsIncrease | networking/src/net_server.hpp:96 | the ids given out increase strictly exactly as long as at most 2^32 - 10000 clients were accepted |
| Rosters.ClientIdsIncrease | networking/src/net_server.hpp:201 | until then, ids increase strictly along the clients held |
| Servers.Server.OnAccept | networking/src/net_server.hpp:80-111 | the server takes the accept step of `Rosters`: an approved connection joins the back of the clients with the next id and the greeting posted; a denied one changes nothing |
| Servers.Server.ClientIsAccounted | networking/src/net_server.hpp:77-145 | in every state of the server object each approved connection is held or was reported, once and never both, and has the id that its place gives |
| Servers.Server.OpenOrClosed | networking/src/net_server.hpp:130-138 | the clients held split into the open ones, which a broadcast reaches, and the closed ones, which it removes |
| Servers.Server.MessageAllClients | networking/src/net_server.hpp:127-145 | the loop and the in-place removal: each client that is open stays and, unless ignored, gets exactly one job; each that is not is removed and reported, in order; all other connections are untouched |
| Servers.Server.OnMessage | netServer/src/SimpleServer.cpp:35-62 | a ping is posted back to its sender as it came; a message to all posts the sender's id to every other open client; other messages post nothing |
| Servers.Server.Update | networking/src/net_server.hpp:150-162 | the oldest messages, as many as there are up to the limit, are handled in order and the rest stay queued; each connection is posted exactly the replies to the handled messages, in order |
| Refinement.RepliesAlike | netServer/src/SimpleServer.cpp:35-62 | for a server object in the state of `Network`, what handling the next message posts to each connection is what the step of `Network` posts at that server end |
| Refinement.HandleNext | networking/src/net_server.hpp:155-161 | one round of the update loop on the object is that step of `Network`: same jobs, removals, reports and queue |
| Refinement.AcceptClient | netServer/src/SimpleServer.cpp:23-29 | so is accepting a client with its greeting |
| Refinement.ReadDone | networking/src/net_connection.hpp:203-214 | so is a finished read at a connection, which puts into the shared queue exactly the message newly delivered, tagged with that connection |
| Refinement.EndStepMatches | networking/src/net_connection.hpp:104-273 | and so is any step of one connection that leaves the others alone and queues just what it newly delivered |
| Clients.Client.PingServer | netClient/src/SimpleClient.cpp:19-28 | an open client posts one ping that carries the clock |
| Clients.Client.MessageAll | netClient/src/SimpleClient.cpp:30-34 | an open client posts one bodiless message |
| Clients.Client.Round | netClient/src/SimpleClient.cpp:105-142 | one round of the loop: quit, idle, or show what the oldest message holds and remove it |
| Clients.PingShowsItsTime | netClient/src/SimpleClient.cpp:117-125 | a ping that came back as it was sent shows the time it was sent at |
| Clients.HelloShowsItsSender | netClient/src/SimpleClient.cpp:127-134 | a server message shows the id of the client that asked for it |
| Network.ServerDelivers | netServer/src/SimpleServer.cpp:35-62 | whatever a chat client does, early sends included, the server delivers a prefix of the sticky image of its messages |
| Network.PerClientOrder | networking/src/net_server.hpp:155-161 | for each client, what was handled followed by what is queued is exactly what its connection delivered, in order |
| Network.RepliesAsIfFaithful | netServer/src/SimpleServer.cpp:37-61 | each handled message is answered exactly as the message its client sent at that position |
| Network.ClientsNeverUnderflow | netClient/src/SimpleClient.cpp:110-136 | in every run, every `>>` of every client's switch finds its 8 or 4 bytes |
| Traffic.WireImages | netServer/src/SimpleServer.cpp:7-14 | the exact bytes of the four messages of the application |
| Traffic.MessageAllOutcome | networking/src/net_server.hpp:127-145 | handling a message to all sends the id of its sender, once, to each other client held and open, removes and reports each that is closed, and changes nothing else |
| Traffic.PingOutcome | netServer/src/SimpleServer.cpp:44-49 | handling a ping sends it back to its sender as it came, and nothing else |
| Traffic.OpenClientsAreHeld | networking/src/net_server.hpp:127-145 | in every run, a client whose connection is open is held and was never reported |
| Traffic.ServerTellsExactly | netServer/src/SimpleServer.cpp:23-62 | in every run, what the server was told to send to a client is exactly its greeting, its handled pings, and the ids of the others whose messages to all were handled while it was open, in that order of events |
| Traffic.ClientGetsWhatIsDue | networking/src/net_connection.hpp:104-218 | in every run, a client has been delivered a prefix of that, with sticky bodies |
| Traffic.ClientGetsAllThatIsDue | networking/src/net_connection.hpp:104-218 | and all of it, once a link that neither failed nor was closed has nothing left to do |
| Traffic.GreetingComesFirst | netClient/src/SimpleClient.cpp:111-115 | the first message a client is delivered is the greeting, shown as the validation |
| Traffic.ClientSendsExactly | netClient/src/SimpleClient.cpp:19-34 | in every run, what a client has sent is exactly what its user asked for while the socket was open |
| Traffic.ClientShowsInOrder | netClient/src/SimpleClient.cpp:105-142 | in every run, what a client has shown is what it was delivered, message by message in order, one more with each round |
| Shown.PingsComeBack | netServer/src/SimpleServer.cpp:44-49 | in every run, the pings delivered to a client are, in order, a prefix of the pings it sent |
| Shown.ShownPing | netClient/src/SimpleClient.cpp:117-125 | every ping delivered to a client is a ping as a client builds it for some time, and is shown with that time |
| Shown.ShownHello | netServer/src/SimpleServer.cpp:52-59 | in every run, each server message delivered to a client carries, and is shown with, the id of another accepted client that has sent a message to all |

## Left out

- Asio itself: sockets, resolver, `io_context`, threads and `async_*` are replaced by the steps and assumptions above.
- `MessageClient` (networking/src/net_server.hpp:115-124): it calls a member that does not exist and resets the pointer before using it as the key to remove.
- Object lifetimes, raw `this` captures, `release()` of the client's connection, and the missing return of `connection::Send`.
- Unsynchronised access to `m_dqConnections` from the context and update threads: accepts, broadcasts and updates are atomic steps.
- `Start`, `Stop`, `Connect`, the failure of `async_connect`, and thread joins.
- Sends before the client's socket is connected: a client end starts when it is.
- Reallocation and allocation failure of byte vectors; the reserved bytes of a resized body are zero and never delivered unread.
- Connections.Connection.OnArrive: bytes already copied into the temporary header by an unfinished read are not visible in it; nothing reads it before the handler runs.
- The unbounded loops of both `main` functions: one round of the client's and any number of calls of the server's update are modelled.
- `front`, `back`, `count`, `empty` and `clear` of the concurrent queue share one step under the lock that changes or reads the elements; the values they return are not modelled.
- `bWait` of `update`: `wait` is modelled with the queue's threads and not combined with the server object.
- The REST and WebSocket classes, `src/example.cpp`, console output, key handling and wall-clock time.
