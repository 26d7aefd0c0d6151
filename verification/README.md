# A verified model of the IPK24-CHAT server

This project models a chat server that serves TCP and UDP clients in one event loop, and proves
what it guarantees over every run. The program is written in C; the model is written in Dafny and
is checked with `dafny verify dfyconfig.toml`.

## What is modelled

* **The session engine** (`src/main.c`, parts of `src/utils.c`). `Session.dfy` gives each routine
  as a function on the state: client list, buffer of unconfirmed datagrams, counters, stop flag and
  stop timer. `Server.dfy` is the program's own form: a class whose methods update these in place
  with loops, each proved to do exactly what its function says. `Server.Serve` ties a whole run of
  the object to `Runs.Run`, of which the theorems speak.
* **The linked list** (`src/queue.c`), nodes on the heap with a ghost sequence (`Queue.dfy`). The
  engine works on sequences; `QueueBridge.dfy` proves that addition, lookup and removal by id in the
  client list and the message buffer, and the purge of the buffer, are those of the list.
* **The deduplication ring and the poll table** (`src/utils.c`): `Ring.dfy`, `PollTable.dfy`.
* **The codecs** (`src/parse.c`, `src/compose.c`, `src/types.c`): `Udp.dfy`, `UdpLayout.dfy`, `Tcp.dfy`,
  `Relay.dfy`.

An event is a TCP accept, a first datagram on the welcome socket, a message or an unparsable text on
a client's socket, a TCP FIN, an idle poll interval, or SIGINT. The environment chooses the next
event and supplies descriptors that no client has and on which nothing is buffered
(`Routines.Admissible`). In the id window this is no restriction, as the system never hands out an
open descriptor. Beyond it `delete_client` may close the descriptor of a client that stays listed, or
of a datagram that stays buffered; the theorems that do without the window assume that the system
does not reuse it meanwhile.

Some state fields are *history*: no branch reads them. `State.sent` lists every first transmission,
so that its length is the message counter and the position of an entry is its send number; `resent`,
`retired`, `receipts` and `executed` record retransmissions, departures from the buffer, messages to
be confirmed and messages executed. `Client.serial` and `Pending.number` are the full counter values
of which the program keeps the low 16 bits (`Types.IdOf`).

## How the proofs are built

| file | content |
|---|---|
| `Books.dfy` | the run invariant `Sound` and its preservation by elementary changes |
| `Routines.dfy` | preservation by every routine and every event, in any state or in the id window |
| `Runs.dfy` | runs, and what the invariant says about them |
| `Phases.dfy` | the session automaton, in any run and in the id window |
| `Outcome.dfy` | the terms in which effects are stated, independent of the engine: transmissions, audiences, closing |
| `Delivery.dfy` | the whole state after every message: confirmation, execution, relaying, answers |
| `Events.dfy`, `IdleTick.dfy` | the whole state after every other event, and after an idle tick |
| `Timer.dfy`, `Reaper.dfy` | the 16-bit timer; the destruction list |
| `Shutdown.dfy`, `Expiry.dfy` | the termination measure; datagrams and servers left in silence |

Four hypotheses appear by name. `Runs.Legal`: every event is one the environment may deliver.
`Runs.Narrow`: send numbers in play, and serial numbers of live clients, span fewer than 65536, since
queue ids are 16-bit truncations; without it `delete_client` can remove the wrong item, exactly when
an id to be removed comes after the same id of another owner (`LinkedQueue.WalkIffUnambiguous`,
`QueueBridge.PurgeIffUnambiguous`, `Phases.ClosedIsGone`). `Runs.Sheltered`: no error was sent to a
refused sender or on the welcome socket, the two cases that buffer a datagram nobody owns.
`Expiry.NarrowInSilence`, in theorems about runs that go silent: however many idle ticks follow, the
run stays in the window. For that it is enough that a message to each client that has not ended, for
each such client, still fits (`Expiry.RoomySilence`). `Example.dfy` exhibits a run that meets all
four, and legal runs that show what fails without the second and the third. The automaton, channel
isolation, confirmations and the ledger need none but the first.

## What the code does and its documentation does not say

* A message timer is an unsigned 16-bit number that must hit zero exactly, in steps of 75. A message
  waits as configured only if the timeout is a positive multiple of 75; with the default of 250 ms the
  first retransmission comes after 43694 idle ticks (`Timer.Punctual`, `Timer.DefaultTimeout`).
* A server that buffers a datagram for nobody never stops in silence (`Expiry.StopsIffOwned`), and
  overruns its destruction list when the condemned clients and the spent datagrams of nobody outnumber
  the clients (`Reaper.DoomListFits`). One unparsable datagram on the welcome socket is enough for both,
  in every configuration (`Example.OrphanedServerHangs`, `Example.DoomListOverflows`). The model of the
  list has no capacity, so what is proved of ticks with an unowned spent datagram, that expiry goes on
  and that the server never stops, holds of the C program up to the first tick that overruns the array.
* A client that confirms a BYE is closed, whosever BYE it was (`Delivery.ConfirmTakesOne`); even a
  sender that was unknown until then (`Example.ForeignFarewell`).
* A client that confirms a datagram as its own composer writes it is understood only if the id is below
  128 (`Relay.AnswerCounts`), and no bytes at all confirm an id from 32513 to 32767
  (`UdpCodec.ReadableRefs`, `Relay.NeverConfirmed`).
* When 65536 later clients have connected, a TCP client that hangs up can stay as an ended client while
  another one is unlinked in its place (`Example.WrongClientUnlinked`).
* Deleting a polled descriptor keeps the others polled only if it was one of the last two
  (`PollTable.DeleteIffNearEnd`), and the next descriptor added is polled only if it was the last one
  (`PollTable.DeleteThenAdd`).
* Datagram identifiers are written in base 256 and read in base 255 from signed bytes; exactly those
  below 128 survive (`UdpCodec.IdRoundTrip`). The reference of a REPLY loses its high byte, so that
  those from 0xFF80 on survive too (`UdpCodec.RefRoundTrip`).
* The regular expressions allow one character more than the grammar in README.md:60-91
  (`TcpCodec.ParseIsGrammar`, `TcpCodec.DocumentedIffWithin`, `TcpCodec.OneTooLong`), and keywords only
  in upper case, although quoted strings are case-insensitive in section 2.3 of RFC 5234
  (`TcpCodec.LowerCaseRejected`).
* A client that says BYE before it is authorized has its leave notice sent to all other clients that
  are not authorized, and one that says it after it has ended has it sent again (`Delivery.Leaves`).
* A leave notice of a client that does not answer comes after the BYE to it, and goes to those who
  have not been given up in the same tick (`IdleTick.IdleInRun`).

## Model

| member | source | states |
|---|---|---|
| `Runs.RunSound` | src/main.c:94-125 | after every legal run the whole invariant holds, with ownership and attribution when the run stays in the id window |
| `Routines.StepSound` | src/main.c:94-125 | every event keeps the invariant, in any state |
| `Runs.Conservation` | src/main.c:533-547 | in every run each first-sent UDP message other than CONFIRM is exactly once either buffered or retired, nothing else ever is, and a confirmed one carried the id named |
| `Runs.DroppedWithOwner` | src/main.c:592-605 | in the id window a message dropped with a client had been sent on that client's descriptor |
| `Phases.ConfirmedByEvent` | src/main.c:366-379 | a message retired as confirmed was named by a CONFIRM the run received |
| `Phases.DroppedForGood` | src/main.c:592-609 | a message retired with a client is retired with one that never lives again |
| `Runs.BufferOrder` | src/main.c:510-549 | the buffer is strictly increasing in send number, each id is the send number modulo 2^16, and ids differ in the window |
| `Runs.Retransmissions` | src/main.c:247-253 | every retransmission is a first transmission again, at most `udp_retransmissions` times each |
| `Relay.ByteIdentical` | src/main.c:251 | every retransmission is byte for byte its first transmission, to the same peer |
| `Runs.AtMostOnce` | src/main.c:326-347 | a client executes an id again only after the ring's window has passed |
| `Runs.OneFarewell` | src/main.c:577-590 | no client is first-sent two BYEs |
| `Runs.AlwaysOwned` | src/main.c:198-215 | every buffered message has a live owner, refusals and noise on the welcome socket apart |
| `Books.TransmitConserves` | src/main.c:510-549 | sending keeps the ledger balanced |
| `Books.RetireConserves` | src/main.c:366-379 | removing one message keeps the ledger balanced |
| `Books.ExecutionOrder` | src/main.c:326-332 | executing a message whose id is outside the window keeps executions ordered and apart |
| `Routines.PurgeExact` | src/main.c:592-605 | with distinct ids, removing by id while iterating leaves exactly the other clients' messages, in order |
| `Routines.DeleteExact` | src/main.c:592-609 | in the window `delete_client` takes the client and its messages and nothing else |
| `Phases.RunOrderly` | src/main.c:316-362 | in every run the automaton's invariant holds, and the stop flag stays set after SIGINT |
| `Phases.Automaton` | src/main.c:316-362 | in every run, between events, a client is Accept without channel, Open with one, or End |
| `Phases.EndedIsUdp` | src/main.c:577-590 | in the id window an ended client that is still listed is UDP |
| `Phases.CloseClients` | src/main.c:577-609 | in any state closing ends a UDP client, and for a TCP client unlinks the first client of its queue id |
| `Phases.ClosedIsGone` | src/main.c:577-609 | a closed TCP client is gone if and only if no earlier client has its queue id |
| `Phases.EndIsFinal` | src/main.c:337-340 | a client that ended and is still there has ended, at any later point of any run |
| `Phases.NobodyOpensAgain` | src/main.c:333-336 | after SIGINT no state of any run has an open client |
| `Phases.StepOrderly` | src/main.c:459-481 | every event keeps the automaton's invariant, clients descend from clients, only a CONFIRM confirms |
| `Phases.CloseEffect` | src/main.c:577-590 | closing ends a UDP client and removes exactly a TCP one with its messages |
| `Delivery.OneConfirmEach` | src/main.c:319-329 | the CONFIRMs of a run are, in order, one for each parsed non-CONFIRM message of a UDP client, with its id |
| `Delivery.ExecutesIffFresh` | src/main.c:326-340 | a UDP message, on a client's socket or as first datagram, is executed exactly when its id is outside the window and it is BYE or neither stop flag nor End phase bars it |
| `Delivery.RepeatOnlyConfirmed` | src/main.c:326-329 | a repeated id changes nothing but the CONFIRM sent and the client's address |
| `Delivery.ConfirmTakesOne` | src/main.c:366-379 | whole new state after a CONFIRM, on a client's socket or as first datagram of an unknown sender: the first message with its id leaves the buffer, in the window the only one, or nothing does; if it was a BYE the confirming client is closed, with a BYE of its own unless it had ended |
| `Outcome.CloseWhole` | src/main.c:577-609 | whole new state after closing a client: at most one BYE, buffered for UDP only, and nothing leaves the buffer |
| `Outcome.TransmitSends` | src/main.c:510-549 | sending appends one numbered transmission, and one message to be confirmed with the configured timeout if it is UDP and no CONFIRM |
| `Delivery.FreshIsDispatched` | src/main.c:316-347 | a fresh message is confirmed and recorded, and then dispatched if and only if it is BYE or neither stop flag nor End phase bars it |
| `Delivery.Disregarded` | src/main.c:333-340 | whole new state after a fresh message that is barred: only its CONFIRM, its record and its address |
| `Delivery.Isolation` | src/main.c:414-457 | whole new state after a fresh MSG of an open client: one copy, unchanged, to exactly the other open clients of its channel, in order |
| `Delivery.Moves` | src/main.c:403-413 | whole new state after a fresh JOIN of an open client, in every run: leave notice, join notice, OK with its id, new channel and name |
| `Delivery.Admitted` | src/main.c:386-402 | whole new state after a fresh AUTH of an accepted client, in every run without SIGINT: join notice, OK with its id, client open in the default channel |
| `Delivery.AdmittedOnce` | src/main.c:389-392 | whole new state after a fresh AUTH of an open client, in every run: NOK with its id |
| `Delivery.ErrorNoted` | src/main.c:421 | whole new state after a fresh ERR of an open client, in every run: nothing but its CONFIRM and record |
| `Delivery.ThrownOut` | src/main.c:342-361 | whole new state after a REPLY of an open client, or what an unauthorized one may not say, in every run: one ERR, no BYE, client dismissed |
| `Delivery.Leaves` | src/main.c:422-428 | whole new state after a fresh BYE in any phase, in every run, interrupted or not: ERR if unauthorized, leave notice to exactly those who hear the sender, client dismissed |
| `Outcome.ForwardReaches` | src/main.c:433-457 | a broadcast in an orderly list is one MSG to each of the sender's audience, in order, and nothing else |
| `Delivery.Speaking` | src/main.c:414-420 | MSG, once dispatched: recipients, copies, and the sender's new name |
| `Delivery.Authorizing` | src/main.c:386-402 | AUTH of an accepted client: notice to the default channel, OK with its id, client open under the new names |
| `Delivery.AuthorizingTwice` | src/main.c:389-392 | AUTH of an open client: whole new state, NOK with its id and no other effect |
| `Delivery.Joining` | src/main.c:403-413 | JOIN: leave notice under the old name, join notice under the new one, OK with its id |
| `Delivery.Departing` | src/main.c:422-428 | BYE in any phase, once dispatched: ERR if unauthorized, leave notice, no answer, client ended or unlinked |
| `Delivery.Impersonating` | src/main.c:380-385 | REPLY of an open client: one ERR, no BYE, client ended or unlinked |
| `Delivery.Trespassing` | src/main.c:461-473 | other messages of an unauthorized client: one ERR, no BYE, client ended or unlinked |
| `Timer.OneTick` | src/main.c:245 | each tick brings the wrapping timer one tick nearer to zero |
| `Timer.FirstZero` | src/main.c:245-247 | the timer is first zero after exactly `TicksToZero` ticks, at most 65536 |
| `Timer.TicksSolve` | src/main.c:245-247 | 75 times that number is the timer modulo 2^16 |
| `Timer.Punctual` | src/types.h:236-237 | a timeout is kept if and only if it is a positive multiple of 75; any other is late by a full turn |
| `Timer.DefaultTimeout` | src/argv.c:17-18 | the default timeout takes 43694 ticks |
| `Timer.OneTickOlder` | src/main.c:244-268 | each tick takes one tick off a message's life, and it is spent in its last |
| `Timer.LifeBounded` | src/main.c:247-255 | no message lives longer than 65536 ticks per transmission |
| `Reaper.DoomList` | src/main.c:254-267 | the destruction list names each condemned client once and holds a null entry for each spent message of nobody |
| `Reaper.DoomListFits` | src/main.c:241-266 | the list fits its array if and only if the clients with a spent message and the spent messages of nobody are together no more than the clients, which holds when all messages are owned |
| `Example.DoomListOverflows` | src/main.c:241-266 | in every configuration a run of one unparsable datagram and silence overflows the list |
| `Reaper.DestroyAllReaps` | src/main.c:272-285 | each listed client is closed or deleted once, as it stood before the first entry; null entries are skipped and all others are untouched |
| `Shutdown.TickEffect` | src/main.c:238-289 | the clients after an idle tick: exactly those with a spent message are closed or deleted, whether or not every message is owned |
| `IdleTick.TickWhole` | src/main.c:238-289 | whole effect of an idle tick: older timers, exact retransmissions, and in the order of the spent messages a BYE, to be confirmed, and leave notices for each client that had not ended, deletion for each that had |
| `IdleTick.IdleInRun` | src/main.c:112-124 | the same in every run that stays in the window |
| `IdleTick.GracePeriod` | src/types.h:30-33 | after the first SIGINT of any run the server lives for at least seven idle ticks, and with nothing to confirm stops in the eighth |
| `Events.Interrupted` | src/main.c:611-624 | SIGINT in every run: exactly one BYE to each client that had not ended, in order, to be confirmed at UDP; everybody still listed has ended |
| `Events.InterruptLeaves` | src/main.c:611-624 | in the window exactly the UDP clients are left, in order, all ended |
| `Events.HangsUp` | src/main.c:556-559 | whole new state after a FIN, in every run and phase: BYE unless ended, TCP client dismissed and in the window gone, buffer unchanged; nothing for UDP |
| `Events.Accepts` | src/main.c:132-168 | a TCP connection is registered as accepted client |
| `Events.Refuses` | src/main.c:198-204 | a first datagram from an address in use: one ERR on its descriptor |
| `Events.WelcomeNoise` | src/main.c:562-568 | an unparsable first datagram: one ERR that nobody owns |
| `Events.ClientNoise` | src/main.c:562-568 | an unparsable message of a client: one ERR to it |
| `Events.NobodyThere` | src/main.c:291-301 | a descriptor without client: nothing |
| `Shutdown.DestroyCount` | src/main.c:275-284 | what closing a client sends is bounded by the clients still active |
| `Shutdown.MeasureDecreases` | src/main.c:238-289 | every idle tick on a non-empty owned buffer decreases the termination measure |
| `Shutdown.IdleServerStops` | src/main.c:112-124 | an interrupted server with owned buffer stops within the bound |
| `Expiry.Expires` | src/main.c:244-284 | whatever else is buffered, after exactly its life an owned message has left the buffer, or its client, which had not ended, has been closed and the message waits without retransmissions |
| `Expiry.ExpiresEnded` | src/main.c:280-283 | if its client had ended the message has left the buffer |
| `Expiry.GoneForGood` | src/main.c:244-284 | one turn of the 16-bit timer after its life every owned message has left the buffer |
| `Expiry.ExpiresInRun` | src/main.c:244-284 | both for every run whose silence stays in the window, for each message with a live owner, with at most 1 + `udp_retransmissions` transmissions |
| `Expiry.OrphanHangs` | src/main.c:112-124 | a message of nobody keeps the server from stopping for ever |
| `Example.OrphanedServerHangs` | src/main.c:562-568 | a legal run in the window, one unparsable datagram and SIGINT, that never stops in silence |
| `Expiry.TickSponsors` | src/main.c:275-284 | a tick that leaves an owned message buffered leaves its owner listed |
| `Expiry.RoomySilence` | src/main.c:577-590 | a bound on what closing everybody can send keeps the silence in the window |
| `Expiry.ShutdownTerminates` | src/main.c:94-125 | after SIGINT and a silence that stays in the window every sheltered run stops within clients, retransmissions and timer cycle |
| `Expiry.StopsIffOwned` | src/main.c:112-124 | an interrupted server in a silence that stays in the window stops if and only if every buffered message has a live owner |
| `DedupRing.RingOfRepresents` | src/main.c:330-331 | whatever was recorded, across any number of 16-bit wraps, the ring holds the last 32 ids |
| `DedupRing.ContainsIsRecent` | src/utils.c:156-169 | the ring answers yes exactly for the last min(31, n mod 65536) of n recorded ids |
| `DedupRing.IsMsgConfirmed` | src/utils.c:156-169 | the loop computes that answer |
| `ServerObject.Server.SendMsg` | src/main.c:510-549 | new state of a first transmission |
| `ServerObject.Server.ForwardMsgChannel` | src/main.c:433-457 | new state of a channel broadcast |
| `ServerObject.Server.DeleteClient` | src/main.c:592-609 | new state of a deletion that unlinks by id while it walks |
| `ServerObject.Server.CloseClient` | src/main.c:577-590 | new state of closing a client |
| `ServerObject.Server.CheckStateTransition` | src/main.c:459-481 | verdict and new state |
| `ServerObject.Server.ExecuteMsg` | src/main.c:364-431 | answer and new state for each kind of message |
| `ServerObject.Server.ProcessMsg` | src/main.c:316-362 | confirm, deduplicate, ignore or dispatch |
| `ServerObject.Server.GetNextTimeout` | src/utils.c:119-130 | the minimum that starts at zero is always zero |
| `ServerObject.Server.SweepBuffer` | src/main.c:238-271 | timers, retransmissions and destruction list |
| `ServerObject.Server.UdpTimeoutTick` | src/main.c:238-289 | new state of `udp_timeout` |
| `ServerObject.Server.IdleBranch` | src/main.c:112-124 | stop timer and timeout handling of an idle interval, which is always 75 |
| `ServerObject.Server.SigintHandler` | src/main.c:611-624 | new state after closing everybody while the list shrinks |
| `ServerObject.Server.UdpPolling` | src/main.c:171-236 | refusal or registration and processing of a first datagram |
| `ServerObject.Server.ProcessMsgSock` | src/main.c:291-314 | one read on a client's socket |
| `ServerObject.Server.Serve` | src/main.c:94-125 | a whole run of the object is the run of the theorems |
| `LinkedQueue.Queue.Add` | src/queue.c:42-48 | appends one node |
| `LinkedQueue.Queue.Get` | src/queue.c:58-64 | the first node with the id, or null |
| `LinkedQueue.Queue.Remove` | src/queue.c:66-87 | unlinks exactly the first node with the id and returns it |
| `LinkedQueue.Queue.Length` | src/queue.c:32-40 | the number of nodes |
| `LinkedQueue.Queue.Last` | src/queue.c:89-99 | the last node, or null |
| `LinkedQueue.Queue.Destroy` | src/queue.c:101-109 | removing by the first id empties the list |
| `LinkedQueue.Queue.DropOwned` | src/main.c:592-605 | walking the heap list while unlinking by id; exact condition for it to be a filter |
| `LinkedQueue.WalkIffUnambiguous` | src/main.c:592-605 | the walk leaves exactly the other owners' entries, in order, if and only if no entry to be removed comes after another owner's entry of the same id |
| `LinkedQueue.WalkIsFilter` | src/main.c:592-605 | in particular with distinct ids |
| `LinkedQueue.WalkNeedsDistinctIds` | src/main.c:598-601 | a list on which the walk removes another owner's entry and leaves its own |
| `QueueBridge.AddIsAppend` | src/main.c:533-547 | buffering a message and registering a client append one entry under the truncated counter |
| `QueueBridge.RemoveIsRemoved` | src/queue.c:58-87 | lookup and removal by id in the engine's buffer and client list are those of the linked list |
| `QueueBridge.PurgeIsWalk` | src/main.c:592-605 | the engine's purge is the walk over the linked list |
| `QueueBridge.PurgeIffUnambiguous` | src/main.c:592-605 | in any state deleting a client leaves exactly the others' messages if and only if none of its messages comes after another's of the same id |
| `PollTable.Table.Resize` | src/utils.c:25-39 | keeps the table and appends zeroed slots |
| `PollTable.Table.GetFree` | src/utils.c:10-23 | the first free slot, growing the table if there is none |
| `PollTable.Table.Add` | src/utils.c:79-89 | the descriptor goes to the first free slot; a packed table stays valid, packed and in order |
| `PollTable.Table.Delete` | src/utils.c:91-117 | marking and shifting in place |
| `PollTable.AddRun` | src/utils.c:79-89 | through any additions and resizes the active range is what was added, in order |
| `PollTable.DeleteExact` | src/utils.c:91-117 | deleting copies the successor over the entry and forgets the last |
| `PollTable.DeleteIffNearEnd` | src/utils.c:91-117 | the others stay polled exactly when the entry was one of the last two; else the last is lost |
| `PollTable.DeleteThenAdd` | src/utils.c:79-117 | after a deletion the next descriptor is polled if and only if the deleted entry was the last one and a slot was free |
| `PollTable.DeleteAbsent` | src/utils.c:91-117 | an unknown descriptor changes nothing |
| `UdpCodec.SplitL` | src/parse.c:216-236 | returns min(separators, max - 1), or -1 past the end, and stores exactly the first pieces |
| `UdpCodec.ParseUdp` | src/parse.c:130-214 | the parser in memory computes `UdpCodec.Parse` |
| `UdpLayout.IdBytes` | src/compose.c:48-72 | an id is written in two bytes, base 256, high byte first |
| `UdpLayout.Layout` | src/compose.c:45-77 | every datagram is its type code, its id in two bytes, and its fields with terminators |
| `UdpLayout.ComposeInjective` | src/compose.c:45-77 | no two messages have the same datagram, but for the high byte of the reference of a REPLY |
| `UdpLayout.ParseIffDatagram` | src/parse.c:130-214 | the parser returns a message exactly for the datagrams laid out for it: sizes, type code, ids in base 255 from signed bytes, leading fields |
| `UdpCodec.IdRoundTrip` | src/parse.c:139-147 | the decoder inverts the encoder exactly on ids below 128 |
| `UdpCodec.RefRoundTrip` | src/compose.c:51-54 | which references of a REPLY survive without their high byte |
| `UdpCodec.ReadableRefs` | src/parse.c:130-147 | some bytes are read as a CONFIRM of an id if and only if it is 16-bit and not from 32513 to 32767 |
| `UdpCodec.ConfirmReads` | src/compose.c:48-50 | a composed CONFIRM is read as a CONFIRM, of the same id if and only if that is below 128 |
| `UdpCodec.RoundTrip` | src/compose.c:45-77 | parsing what was composed returns the message if and only if its ids survive |
| `UdpCodec.ParseAccepts` | src/types.c:24-92 | every parsed message obeys the character classes and bounds |
| `TcpCodec.ParseIsGrammar` | src/parse.c:18-128 | the parser returns a message exactly for the documented sentence of it with each bound raised by one |
| `TcpCodec.ParseAcceptsDocumented` | README.md:60-91 | every sentence of the documented grammar, read case-sensitively, is parsed into its fields |
| `TcpCodec.DocumentedIffWithin` | README.md:60-91 | a parsed text is such a sentence if and only if every field keeps its documented bound |
| `TcpCodec.OneTooLong` | src/types.c:24-92 | a display name of 21 characters is parsed outside the grammar |
| `TcpCodec.LowerCaseRejected` | src/parse.c:18-128 | a keyword in lower case is not parsed |
| `TcpCodec.UniqueSplit` | src/parse.c:25-31 | no text has two divisions into fields |
| `TcpCodec.RoundTrip` | src/compose.c:18-43 | parsing what was composed restores every message but CONFIRM, up to ids |
| `Relay.RelayKeepsMeaning` | src/main.c:414-420 | whatever bytes of either protocol a MSG came in, each copy reads as the same name and content |
| `Relay.SaidIsHeard` | src/main.c:414-457 | in every run, bytes that read as a fresh MSG of an open client cause exactly one copy for each other open client of its channel, and each reads as the same name and content |
| `Relay.AnswerCounts` | src/main.c:366-379 | the bytes of a composed CONFIRM take the message they mean out of the buffer if and only if its id is below 128 |
| `Relay.NeverConfirmed` | src/main.c:366-379 | in every run of messages read from bytes, one with an id from 32513 to 32767 leaves the buffer only with a client |
| `Relay.ReadsAsSaid` | src/main.c:448-452 | a copy reads back unchanged at TCP, and at UDP for send ids below 128 |
| `Example.HypothesesMet` | src/main.c:94-125 | a login followed by SIGINT meets every hypothesis of the run theorems, with two messages unconfirmed |
| `Example.ForeignFarewell` | src/main.c:226-235 | a legal run in which an unknown sender confirms another client's BYE and is ended for it |
| `Example.WrongClientUnlinked` | src/main.c:592-609 | a legal run beyond the id window in which a TCP client hangs up, another is unlinked, and it stays ended |
| `Types.FieldsInFigures` | src/types.c:24-92 | the field classes in character codes and the bounds in figures |
| `Types.IdOfIsMod` | src/main.c:513-519 | truncating a uint32 counter counts modulo 2^16 for ever |

## Left out

- Sockets, `poll`, `accept` and `bind` (`src/server.c`): the environment chooses the events and supplies unused descriptors.
- The failed TCP send (src/main.c:522-528), which re-enters `close_client` on the same client: sends are taken to be accepted.
- The POSIX regex engine: replaced by character classes, lengths and a hand-written splitting of fields.
- Fields too long for their C array: the model's strings have no capacity, so for fields of 20, 128 or 1400 characters and more the codec theorems speak of the formats and not of memory; events of the engine carry only fields that fit with their terminator.
- The capacity of the destruction list: `Reaper.DoomListFits` says when it is exceeded, the ticks of the model go on.
- Dangling pointers beyond the id window: an entry of the destruction list whose client was unlinked in another's place is skipped.
- Signal delivery in the middle of an event: SIGINT is an event of its own.
- The `is_confirmed` flag of a buffered message: it is set only immediately before the message is removed, so no buffered message has it.
- The `protocol` column of the poll table, which no branch reads, and the calls that keep the poll table in step with the client list.
- Several messages in one packet: each read is one event.
- Allocation failures, logging, `src/error.c`, argument parsing and the help text.
- `msg_fill_error`, `msg_fill_reply` and `is_message_id`, which nothing calls.
- Completeness of join and leave notices: the code sends none on TCP FIN or SIGINT and may repeat them after a second BYE.
