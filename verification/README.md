# HLS over WebSocket: a verified model

This project models the live video distribution of the repository in Dafny and proves properties of it.
A publisher connection feeds an `HlsSource`; the source keeps a bounded buffer of recent fragments and one
bounded channel per listener; a pulling connection drains its channel onto a socket; an `HlsRelay` on another
server reads that socket and publishes again, over any number of hops. Around this sit the two controllers
that decide which source or relay serves a stream, the wire protocol with its publisher client, the rate
limiter, the reordering publisher of the tester, and three parsers with their printers.

`dafny verify dfyconfig.toml` checks the whole project.

## How it is laid out

| file | what it holds |
|---|---|
| `Sequences.dfy`, `Fragments.dfy`, `Texts.dfy`, `Floats.dfy` | subsequences and blocks by position, sums over maps; fragments, events, byte counts; Go strings as octets, splitting, decimal numbers; floating-point numbers as text |
| `MemoryLimiter.dfy` | the byte limit shared by all buffers: eviction loop, release, conservation over any number of buffers |
| `FanOut.dfy`, `StreamPull.dfy` | the half that source and relay share, as classes; the snapshot share a puller sends first |
| `RelayNetwork.dfy` | any number of sources, relays and pullers as one state machine, one step per critical section, send or receive; the theorems about whole runs |
| `CloseProgress.dfy`, `Delivery.dfy` | when `Close` comes to its end, and when it cannot; what can still be delivered from any reachable state |
| `HubSteps.dfy`, `WireNetwork.dfy` | the object `FanOut.Broadcaster` takes the steps of the network; the threads and frames of a connection take them too |
| `SourceOwnership.dfy`, `RelayOwnership.dfy` | the two controllers, as classes and as interleavings of critical sections |
| `Messages.dfy`, `MessageRules.dfy`, `Wire.dfy`, `Reading.dfy` | protocol messages as text in Go and JavaScript; what their parsers make of any text; frames and packets; what all readers of frames share |
| `Publisher.dfy`, `Connection.dfy`, `ConnectionRules.dfy`, `PushProtocol.dfy` | the publisher client, the reading side of the server, when exactly it does what, and client and server composed |
| `PullSender.dfy`, `RelayReader.dfy`, `RelayRules.dfy`, `PullProtocol.dfy` | the writing side of a pulling connection, the reading side of a relay, when exactly it does what, and the two composed |
| `RateLimiter.dfy`, `ConnectionLimit.dfy` | requests and connections per IP |
| `ReorderPublisher.dfy`, `Playlists.dfy`, `PlaylistRules.dfy` | the tester's publisher; its playlists (RFC 8216, section 4.3), and what their decoder makes of spaces, case and missing ends |
| `Int32.dfy`, `Mp4Boxes.dfy` | JavaScript's bit operations, and the box search of the player (ISO/IEC 14496-12, section 4.2) |

Code that changes state in place is a class whose methods are proved against specification functions on
values. The theorems about all runs are lemmas about state machines built from the same functions: the readers,
writers and limiters step by them as they are; the maps of the two controllers are changed by functions that
methods and machines share (`Replace`, `Remove`, `Register`, `Unregister`); and `HubSteps` shows that each method
of `FanOut.Broadcaster` takes the step of that name in the network. Where several threads share a struct,
a run is an arbitrary list of steps, each one critical section of its mutex; a step that cannot happen at its
turn is skipped, so every list of steps is a run. History (what was accepted, offered, submitted, written) is
kept beside the state and never read by it.

The readers and parsers are pinned down twice: by theorems over whole lives and round trips, and in
`ConnectionRules`, `RelayRules`, `MessageRules` and `PlaylistRules` by the exact condition for every single effect,
over all states and inputs.

A socket is a reliable queue that may stop at any frame. The wire theorems are therefore stated for every
prefix of what was written. They join the network in `WireNetwork`: the pulling thread of `PullSender` moves in
step with the puller of the network (`StepMatches`, `OthersMatch`), and what a relay hands on after any number of
frames is what the network's relay reads (`HandedIsRead`).

## Where the code departs from what one would expect

- `AddFragment` ignores the limiter's trimmed buffer when the fragment is accepted, and drops the oldest
  fragment of a full buffer without telling the limiter (server/source.go:205-213, server/relay.go:222-230).
  "Usage is the bytes held" is a theorem about the limiter with a caller that takes the returned buffer
  (`MemoryLimiter.MemoryConserved`). For `AddFragment` as written, `FanOut.BooksStayRightExactlyWhen` says in bytes
  known before the call when the books stay right, `FanOut.HeldStaysWithinExactlyWhen` when the bytes held stay
  within the limit, and `FanOut.BooksGoWrong` gives an input for each way in which they do not: too much counted,
  and too much held. A closed source never gives its memory back (server/source.go:162-186).
- `PullStream` does not clamp its start index (server/stream_pull.go:41). It faults exactly when more fragments
  are asked for than are buffered (`StreamPull.InitialSendsExactlyWhen`), and a PULL passes any number on as it is
  (`WireNetwork.UnclampedStartIsReached`). A relay asks for all there are, and so never meets this
  (`WireNetwork.RelayAsksForAll`).
- `Close` sends on a possibly full channel while it holds the mutex that a leaving listener needs
  (server/source.go:178-180). It can come to its end exactly when no listener it has yet to tell has stopped
  reading with its channel full (`CloseProgress.CloseCanFinishExactlyWhen`). A run of five steps gets it stuck for
  ever (`CloseProgress.CloseDoesBlock`); while the pullers keep reading it cannot (`CloseProgress.ReadersStay`,
  `CloseProgress.WorkIsThere`), and the work it takes is bounded in every run (`CloseProgress.WorkIsBounded`).
- A duration is refused when it is at most zero (server/connection.go:523, server/relay.go:429). That lets through
  what is not a number, so a sound fragment is one whose duration is positive or not a number; the playlist
  decoder asks for more than zero and drops it (tester/hls.go:113).
- `checkInactivity` never takes its warning back (server/relay.go:563-581). It closes at the second check without
  listeners, even when there were some in between (`RelayReader.StopsAtSecondIdleCheck`).
- Go escapes a space as `+`, and the JavaScript reader leaves `+` alone (client-js/src/message.ts:64-65). It reads
  back what Go wrote exactly when there is no space and all is UTF-8 (`Messages.JsReadsGoExactlyWhen`).
- A text that ends in its only colon keeps it in the type for Go (server/message.go:51), while JavaScript drops it
  (`MessageRules.ColonAtTheEnd`); of repeated parameters Go joins the values, JavaScript keeps the last
  (`MessageRules.RepeatedKeys`).
- A playlist with a non-positive duration, more than six decimals, an impossible head or indices that are not
  consecutive does not survive the round trip; `Playlists.RoundTripExactlyWhen` says exactly which do.

## Model

| member | source | states |
|---|---|---|
| RelayNetwork.EndToEnd | server/stream_pull.go:34-62 | Over any number of hops and any interleaving, what the last puller wrote is an in-order subsequence, by position, of what the origin source accepted, and a gapless block of it if no channel on the path was ever full at a send. |
| RelayNetwork.OneHop | server/source.go:189-228 | One hop of the same: what a puller sent embeds in its hub's history at increasing positions; without a drop, everything it was given is one block of that history. |
| RelayNetwork.AlongPath | server/relay.go:210-249 | The hops compose along any chain of relays, from the invariant alone. |
| RelayNetwork.JoinIsSeamless | server/source.go:132-150 | A listener's share of the snapshot followed by everything later offered to its channel is exactly the history from the snapshot's first position on: no gap, no repeat, whatever steps interleave. |
| RelayNetwork.BufferIsRecentHistory | server/source.go:203-213 | In every reachable state a buffer is a suffix of the accepted history, of length at most max(1, fragmentBufferMaxLength), also after refusals. |
| RelayNetwork.CloseDiscipline | server/source.go:162-186 | Every channel's log is fragments and then at most one CLOSE; once a hub is closed, by Close or by the inactivity check, exactly the pullers that had not unregistered have got theirs. |
| RelayNetwork.CloseComesLast | server/stream_pull.go:47-61 | A puller that has passed on CLOSE has passed on everything it was given; without drops that is the history from where it joined to its end. |
| RelayNetwork.StepKeeps | server/relay.go:146-269 | Each of the thirteen kinds of step keeps the invariant of the whole network. |
| Delivery.CanSendAll | server/stream_pull.go:42-61 | From every reachable state a puller that was not interrupted can send, by steps of its own, all it was ever given and has not lost, touching nobody else. |
| Delivery.CanForwardAll | server/relay.go:210-249 | While a puller of an open relay waits at its channel, there is a run in which all that reached the relay's socket is accepted by the relay and passed on by that puller, in order and without a loss, whatever the size of the channel. |
| Delivery.ReadTakesNext | server/relay.go:450-489 | A relay takes the next fragment from its socket and, while open, adds just that one to its history. |
| Delivery.InactiveIsClosed | server/relay.go:559-584 | A relay that stops for want of listeners is closed, and nothing else changes. |
| Delivery.MissedExactlyWhen | server/source.go:215-227 | A listener has missed something if and only if once, when a fragment was added, its channel had no room. |
| CloseProgress.LoadNeverGrows | server/source.go:178-180 | While a hub closes, no step of anyone adds to the work left (listeners untold, events queued), and every send of CLOSE and every read of its listeners lessens it. |
| CloseProgress.WorkIsBounded | server/source.go:178-180 | In every run that goes on from a close in progress, the sends of CLOSE and the reads of its listeners number at most its load. |
| CloseProgress.WorkIsThere | server/stream_pull.go:47-61 | While no listener yet to be told is deaf, such a send or read can happen, or the close can end. |
| CloseProgress.ReadersStay | server/stream_pull.go:47-61 | As long as listeners are not interrupted, none of them becomes deaf: with the two rows above, a close whose pullers keep reading ends. |
| CloseProgress.CloseDoesBlock | server/source.go:162-186 | One fragment in a channel of one, its puller interrupted, then Close: this run is reached, and however it goes on the source is never closed. |
| CloseProgress.CloseCanFinishExactlyWhen | server/source.go:178-180 | A close in progress can still finish if and only if no listener it has yet to tell has stopped reading with a full channel. |
| CloseProgress.DeafBlocksForever | server/stream_pull.go:58-59 | Such a listener keeps the close from finishing in every continuation. |
| FanOut.Broadcaster.AddFragment | server/source.go:189-228 | The new buffer and usage are those of the limiter's answer and the length rule; every channel is offered the fragment without blocking; a closed hub changes no buffer. |
| FanOut.Broadcaster.AddListener | server/source.go:132-150 | A closed hub refuses; otherwise a fresh empty channel is registered under the id and the snapshot is the buffer. |
| FanOut.Broadcaster.RemoveListener | server/source.go:154-159 | Exactly the listener of that id goes. |
| FanOut.Broadcaster.Close | server/source.go:162-186 | Every listener is told exactly once across resumptions; it blocks only at a channel without room, and ends closed and without listeners. |
| FanOut.RetainsTheNewest | server/source.go:205-213 | Of an accepted fragment the buffer keeps the newest ones with the new one last: one more than before while there is room, else as many as before. |
| FanOut.OfferedExactlyWhen | server/source.go:215-227 | A fragment enters a channel if and only if there is room, or the channel has no buffer and its listener waits at it. |
| FanOut.BooksStayRightExactlyWhen | server/source.go:205-213 | With right books before an addition, they are right after it if and only if not even an empty buffer would make room, or the fragment fits as it is and the buffer is not full, or it fits just once the oldest fragment goes and the buffer is full; all in bytes known before. |
| FanOut.HeldStaysWithinExactlyWhen | server/source.go:203-213 | After an addition the bytes held are within the limit if and only if, for a fragment without hope of room, the rest held elsewhere is, and for any other, there is room beside everything but the one a full buffer drops. |
| FanOut.BooksGoWrong | server/relay.go:222-230 | A full buffer leaves the limiter counting 9 bytes with 6 held; one that is not full holds 9 bytes under a limit of 6, with 6 counted: two concrete additions with right books before. |
| HubSteps.JoinStep | server/source.go:132-150 | Registering a listener is the network's Join, with the snapshot share the puller will send. |
| HubSteps.LeaveStep | server/source.go:154-159 | Unregistering one is its Leave. |
| HubSteps.AddStep | server/source.go:189-228 | Adding a fragment is its step of that name, on buffer and every channel. |
| HubSteps.CloseSteps | server/source.go:162-186 | A close that is not held up is a run of BeginClose, one Tell per listener, and EndClose. |
| StreamPull.InitialSendsExactlyWhen | server/stream_pull.go:37-43 | The initial loop stays in range if and only if no more fragments are asked for than are buffered; it then sends the newest ones, as many as asked for. |
| MemoryLimiter.Evictions | server/memory_limiter.go:70-73 | What is evicted is the shortest prefix of the buffer that makes room, or everything when nothing shorter does. |
| MemoryLimiter.RefusalIsLastResort | server/memory_limiter.go:59-90 | A fragment is refused if and only if giving up the whole buffer would not make room, and a refusal returns an empty buffer. |
| MemoryLimiter.CheckEvictsLeast | server/memory_limiter.go:59-90 | The answer keeps a suffix of the buffer, and with any shorter prefix evicted the newcomer would not have fitted; usage follows what went and came; when disabled, or without data, nothing changes. |
| MemoryLimiter.Limiter.CheckBeforeAddingFragment | server/memory_limiter.go:59-90 | The loop computes exactly the specified answer and usage. |
| MemoryLimiter.Limiter.OnBufferRelease | server/memory_limiter.go:38-54 | The usage falls by the bytes of the buffer, when enabled. |
| MemoryLimiter.AddBalances | server/memory_limiter_test.go:9-26 | One check and append changes the usage by exactly as much as it changes the buffer. |
| MemoryLimiter.MemoryConserved | server/memory_limiter.go:38-90 | Over any number of buffers and any run of additions and releases, usage is the total of bytes held and lies between 0 and the limit. |
| SourceOwnership.OpenIsCurrentOrDoomed | server/sources_controller.go:71-98 | Under any interleaving of creates, replacements, closes and removals, every open source is current for its stream or about to be closed by a create in flight. |
| SourceOwnership.OneOpenSourcePerStream | server/sources_controller.go:71-113 | With no create in flight a stream has at most one open source. |
| SourceOwnership.LeavingSparesSuccessors | server/connection.go:102-107 | A leaving publisher takes away its own entry only: no successor loses its place. |
| SourceOwnership.CreateTakesOver | server/sources_controller.go:71-98 | Whatever others do between the two critical sections of a create, the newcomer has an id nobody had, ends open and current, whoever was current ends closed, and nobody else is touched. |
| SourceOwnership.LeavingCloses | server/connection.go:102-107 | A leaving publisher closes its own source and nobody else's, before it gives up its entry, if it still has one. |
| SourceOwnership.SourcesController.CreateSource | server/sources_controller.go:71-98 | Whatever others do between its critical sections: the newcomer has the id taken first, is current and open, whoever was there at the second is closed, and nobody else. |
| SourceOwnership.SourcesController.RemoveSource | server/sources_controller.go:102-113 | The entry goes only if it is this very source; with one object to an id this is the Remove of the state machine. |
| RelayOwnership.OneOpenRelayPerStream | server/relay_controller.go:93-117 | Every open relay is the current one of its stream, so a stream never has two, even when relays close at any moment. |
| RelayOwnership.LateUnregisterIsHarmless | server/relay_controller.go:73-82 | However late a relay unregisters, no open relay loses its place. |
| RelayOwnership.LookupEndsOpen | server/relay_controller.go:93-117 | A lookup finds the open relay and changes nothing, or a new one with an id nobody had becomes current, whatever closes in between. |
| RelayOwnership.UnregisteredIsGone | server/relay_controller.go:73-82 | A closed relay that has unregistered is current for no stream. |
| RelayOwnership.RelayController.GetRelayOrCreate | server/relay_controller.go:93-117 | A usable relay is reused; otherwise a fresh one with the next id becomes current. |
| RelayOwnership.RelayController.RelayStream | server/relay_controller.go:121-168 | Where a stream is relayed from: an open relay first, then the registry (only its source), then the fixed server, else nowhere; a failed lookup counts as unknown. A new relay is returned also when it closed, or went, during the wait for it. |
| Wire.WireIsFaithful | server/message.go:29-78 | Readers understand exactly the packet that was said, whatever order the parameters were written in. |
| Connection.ConnectionCleansUp | server/connection.go:93-252 | Whatever arrives and whenever it breaks off, a connection owns nothing, or starts and stops one pull, or opens one source, hands it only fragments with data whose duration is not at most zero, and releases that source once, after the last of them. |
| ConnectionRules.NoTokenNothingOwned | server/connection.go:352-501 | A connection whose tokens were never valid for what it asked owns nothing in its whole life, whatever it sends. |
| ConnectionRules.PullStartsExactlyWhen | server/connection.go:352-448 | A pull of a stream from a source or a relay, with a number of initial fragments, starts if and only if it is the first request, the id has 1 to 255 octets, the token is valid for it, that number was asked for (-1 when none), and the stream is found there: at a source first, at a relay only without only_source. |
| ConnectionRules.SourceOpensExactlyWhen | server/connection.go:451-501 | A source is opened if and only if PUSH is the first request, the id has 1 to 255 octets, the token is valid for it, and one could be created. |
| ConnectionRules.HandsExactlyWhen | server/connection.go:215-252 | Data goes to the source if and only if it is awaited, not empty and within the limit, with the duration announced for it. |
| ConnectionRules.ReleasesExactlyWhen | server/connection.go:537-557 | A message releases the source if and only if it is a CLOSE of a publisher that has one. |
| ConnectionRules.AwaitsExactlyWhen | server/connection.go:503-535 | Data is awaited after a text if and only if it announced, from a publisher, a duration that is a number not at most zero, or not a number. |
| ConnectionRules.ComplainsExactlyWhen | server/connection.go:172-252 | Each error code is sent exactly in the listed cases, over all states and frames. |
| ConnectionRules.RepliesExactlyWhen | server/connection.go:395-448 | OK is sent exactly to who is let in, CLOSE exactly to who asks for a stream found nowhere, and nothing else is said. |
| ConnectionRules.AnswersInOrder | server/connection.go:409-500 | The source stands before its publisher hears OK; a puller hears OK before its pull starts or before the CLOSE of an empty stream. |
| ConnectionRules.SettlesWith | server/connection.go:352-557 | The mode, the stream and the source of a connection are those of its one success, until its CLOSE. |
| ConnectionRules.StaysSettled | server/connection.go:172-252 | Nothing else changes them. |
| ConnectionRules.GoesOnExactlyWhen | server/connection.go:144-168 | Reading goes on exactly after being let in to a stream that is found, an announcement, a fragment, or chatter once let in. |
| ConnectionRules.EffectsComeFromReads | server/connection.go:124-169 | What a connection does is exactly what its frames cause, each while it was still reading. |
| Connection.BinaryIsNeverUnexpected | server/connection.go:215-219 | Whenever the reader waits for data it has an accepted duration and a source, so the complaint there is never sent. |
| Connection.ReadingStops | server/connection.go:144-168 | A prefix of the input has a prefix of the effects, and a stop is final. |
| Connection.ConnectionHandler.HandlePush | server/connection.go:451-501 | State, effects and result of PUSH, with every refusal. |
| Connection.ConnectionHandler.HandlePull | server/connection.go:352-448 | State, effects and result of PULL: the refusals in their order, the token check among them, source before relay, OK and CLOSE for an unknown stream. |
| Connection.ConnectionHandler.HandleFragmentMetadata | server/connection.go:503-535 | State, effects and result of a fragment announcement. |
| Connection.ConnectionHandler.ReadTextMessage | server/connection.go:172-212 | Dispatch of text messages, on the real text. |
| Connection.ConnectionHandler.ReadBinaryMessage | server/connection.go:215-252 | Data is handed on with the duration announced, or refused. |
| Connection.ConnectionHandler.Run | server/connection.go:124-169 | The read loop and the clean-up have exactly the effects of the specified life. |
| Publisher.QueueKeepsOrder | client-publisher/client.go:251-320 | Across reconnects, what was written followed by what waits is an in-order subsequence of what was submitted, short of it by exactly the number given up, and equal to it when none was. |
| Publisher.QueueIsRecent | client-publisher/client.go:285-320 | Ready implies an empty queue and a socket; while open and not ready the queue is exactly the newest min(k, limit) of the k fragments submitted since readiness was last lost. |
| Publisher.WireIsTrace | client-publisher/client.go:132-351 | What any run writes on one connection is PUSH, then heartbeats and announced fragments with data, then at most one CLOSE. |
| Publisher.ReadyExactlyWhen | client-publisher/client.go:251-283 | In every run an open client is ready if and only if an OK came on its newest connection, with no loss after it. |
| Publisher.SubmittedGoesLast | client-publisher/client.go:285-320 | A fragment submitted then is at once the last of all written, else, while open, the last in the queue; one without data or after the close changes nothing. |
| Publisher.ClosedWritesNoMore | client-publisher/client.go:324-351 | After the close nothing is written but the PUSH of a connection that was still being dialed. |
| Publisher.LoopSteps | client-publisher/client.go:88-283 | In every run dialing writes PUSH and nothing else, a connection stands until it is lost or closed, a loss keeps the queue, and a heartbeat is written exactly while the connection stands. |
| Publisher.GreetingIsDialed | client-publisher/client.go:124-132 | PUSH names the stream, and carries the token, the connection was dialed with. |
| Publisher.HlsWebSocketPublisher.OnReady | client-publisher/client.go:251-270 | Unless closed, the client gets ready, and the whole queue is written in order and emptied. |
| Publisher.HlsWebSocketPublisher.SendFragment | client-publisher/client.go:285-320 | Written when ready, else queued with the oldest pushed out at the limit; ignored when empty or closed. |
| Publisher.HlsWebSocketPublisher.Close | client-publisher/client.go:324-351 | One CLOSE on an existing socket, one interrupt for the heartbeats, then nothing is left. |
| Publisher.CloseEndsHeartbeats | client-publisher/client.go:198-211 | In every run the channel for the interrupt is empty until the close, so that Close never blocks on it, and after it the heartbeat thread has ended or can. |
| PushProtocol.TraceIsFollowed | server/connection.go:503-557 | With PUSH admitted, the server follows such a trace without a complaint if and only if no duration is at most zero and all data is within the limit; it then hands on exactly the fragments written, in order, and stops only at CLOSE. |
| PushProtocol.PublisherAndServerCompose | client-publisher/client.go:214-351 | No run of the publisher makes the server complain, wherever the socket breaks; what is handed on is a prefix of what was written, and all of it once everything was read. |
| PushProtocol.DialedStreamIsOpened | client-publisher/client.go:124-132 | The server opens the very stream the publisher dialed, after checking the very token, or complains with the code for what is wrong. |
| PullSender.OutputIsRegular | server/connection.go:287-349 | Three threads on one socket: without heartbeats and errors the output is OK (F binary)*, then at most one CLOSE or one fragment cut off by the loss of the socket; it is what the puller took, in order, and all of it while the line is up. |
| PullSender.PullStreamWrites | server/stream_pull.go:34-62 | On a live line one call writes the newest fragments of the snapshot, as many as asked for, then every fragment received before the first CLOSE or interrupt, in order, then CLOSE if that ended it, and then the socket is shut. |
| PullSender.StepsWrite | server/connection.go:255-349 | What each step of the three threads writes on a live line, to the message. |
| PullSender.BrokenLineIsDead | server/connection.go:287-349 | A lost socket or a connection marked closed leaves what was written, and nothing more is. |
| PullSender.EmptyStreamIsAnswered | server/connection.go:438-447 | A stream found nowhere is answered by OK and CLOSE, whatever heartbeats and errors come between. |
| PullSender.DeadLineStaysSilent | server/connection.go:303-349 | Once the connection is marked closed, or its socket gone, it writes nothing. |
| PullSender.CloseShutsTheLine | server/connection.go:321-339 | Once CLOSE was passed on, nothing more gets out. |
| Wire.FlushAt | server/connection.go:342-349 | Each fragment is written as its announcement with its duration, then its data. |
| PullSender.ConnectionHandler.PullStream | server/stream_pull.go:34-62 | Faults exactly when out of range, else writes the snapshot share and the channel's events until CLOSE or the interrupt. |
| RelayReader.RelayCleansUp | server/relay.go:252-354 | Whatever a relay reads, and whether or not it is closed from elsewhere before, between or after its frames: its waiters are woken exactly once, its listeners told to close exactly once unless it was closed from elsewhere, then it is unregistered and its memory given back, last and once; fragments handed on are sound. |
| RelayRules.WokenExactlyWhen | server/relay.go:125-138 | Over any frames the waiters are woken once if an OK was read, else not at all before the end. |
| RelayRules.ReadyExactlyWhen | server/relay.go:374-411 | The relay is ready exactly when it has read an OK. |
| RelayRules.WaitersAwakeAfterOk | server/relay.go:401-403 | For every run of the pulling connection, once the relay has read its frames up to the OK, the waiters are awake and were woken once, unless an error was sent before it or the relay was closed from elsewhere. |
| RelayRules.HandsExactlyWhen | server/relay.go:450-489 | Data goes to AddFragment if and only if it is awaited, not empty and within the limit, with the duration announced for it. |
| RelayRules.AwaitsExactlyWhen | server/relay.go:414-441 | Data is awaited after a text if and only if it announced a duration that is a number not at most zero, or not a number. |
| RelayRules.ComplainsExactlyWhen | server/relay.go:374-489 | Each error code is sent exactly in the listed cases, over all states and frames. |
| RelayRules.GoesOnExactlyWhen | server/relay.go:330-353 | Reading goes on exactly after an announcement, a fragment, or a text that neither ends the stream nor is refused. |
| RelayRules.ClosedFlagExactlyWhen | server/relay.go:330-353 | While it reads, a relay is closed exactly when a CLOSE was read or it was closed from elsewhere. |
| RelayRules.ListenersToldExactlyWhen | server/relay.go:252-269 | Over a whole life the listeners are told to close exactly once, but not at all if the relay was closed from elsewhere without having read a CLOSE. |
| RelayReader.HlsRelay.ReadTextMessage | server/relay.go:374-411 | State, effects and result of a text frame. |
| RelayReader.HlsRelay.ReadBinaryMessage | server/relay.go:450-489 | State, effects and result of a data frame. |
| RelayReader.HlsRelay.SetReady | server/relay.go:125-138 | Waiters are woken the first time only. |
| RelayReader.HlsRelay.Run | server/relay.go:281-354 | The loop and what is deferred have exactly the effects of the specified life. |
| RelayReader.StopsAtSecondIdleCheck | server/relay.go:559-584 | The inactivity check stops a relay if and only if two checks found no listeners, whatever lay between them. |
| PullProtocol.LogIsFollowed | server/relay.go:374-489 | A relay reads any such output, with heartbeats and errors anywhere, without a complaint of its own, and keeps up with it until an error, a CLOSE or a close from elsewhere. |
| PullProtocol.ServerAndRelayCompose | server/relay.go:374-489 | For every run of the pulling connection and every point at which the socket may break, the relay hands on a prefix of the fragments sent whole, and exactly those once it read everything undisturbed. |
| WireNetwork.StepMatches | server/stream_pull.go:34-62 | Every step of the sending thread is a step of the network's puller, and keeps the two at the same point. |
| WireNetwork.OthersMatch | server/stream_pull.go:34-62 | No step of anybody else moves the puller. |
| WireNetwork.HandedIsRead | server/relay.go:450-489 | What the relay hands on is a prefix of what the network's puller passed on; level with it, the relay's history is what was handed on; one fragment ahead, the network can read just that fragment. |
| WireNetwork.UnclampedStartIsReached | server/connection.go:377-407 | A PULL passes its number of initial fragments on as it is, and the pull faults if and only if the snapshot has fewer: one from a stream that has none yet. |
| WireNetwork.RelayAsksForAll | server/relay.go:492-514 | A relay with a valid token pulls from a source of the other server, or from a relay there unless it wants a source only; it asks for the whole snapshot and so never faults. |
| RateLimiter.LazyCountersRefineBuckets | server/rate_limit.go:210-277 | Lazy draining and periodic deletion give every request the answer of a leaky bucket per IP that is never deleted, for any cleanup interval and any order of visiting. |
| RateLimiter.RateBound | server/rate_limit.go:249-276 | At most limit + rate * (e - s) requests of one IP are accepted at times in [s, e]. |
| RateLimiter.ModestClientNeverRejected | server/rate_limit.go:117-121 | Who sends at most the rate in each second is never rejected. |
| RateLimiter.AcceptedExactlyWhen | server/rate_limit.go:210-277 | A request is accepted if and only if the IP is not limited, or its bucket holds less than the larger of burst and rate. |
| RateLimiter.BurstIsGranted | server/rate_limit.go:117-121 | Of requests that all come from one limited IP in one second the first are accepted, as many as the larger of burst and rate, and no more. |
| RateLimiter.CleanupForgetsDrained | server/rate_limit.go:228-246 | A cleanup that is due keeps exactly the counters that have not drained. |
| RateLimiter.RateLimiter.CountRequest | server/rate_limit.go:210-277 | The counters kept in place are those of the specification, with the same answer. |
| RateLimiter.RateLimiter.Sweep | server/rate_limit.go:228-246 | The deleting loop drains every counter and deletes those that are empty, in any order. |
| ConnectionLimit.ConnectionsAreCounted | server/rate_limit.go:155-206 | In every run the count of a limited IP is its number of open connections, at most the maximum, without an entry when there is none; a connection is turned away exactly at the maximum. |
| ConnectionLimit.LetInExactlyWhen | server/rate_limit.go:155-206 | In every run a connection is let in if and only if the limiter is off, has no maximum, the IP is exempt, or it has fewer open than the maximum; who is not limited is not counted. |
| ConnectionLimit.ArrivalsAndEnds | server/rate_limit.go:155-206 | An arrival let in is one more open connection; one that ends is one less, and leaves room for another. |
| ReorderPublisher.OrderDoesNotMatter | tester/publisher.go:137-232 | If arrivals agree on each index, any two orders of them end with the same count, the least index that lacks data or metadata; with everything below it sent once, in index order; and with the same playlist to the last field: the last ten segments below it, numbered from the first of them, version 3 and target duration 3, live and not ended. |
| ReorderPublisher.ArrivalSettles | tester/publisher.go:166-232 | Each arrival restores that state from any state of that form. |
| ReorderPublisher.TesterPublisher.OnFragmentReady | tester/publisher.go:137-149 | Stale data is ignored; other data is stored, and what became complete is sent. |
| ReorderPublisher.TesterPublisher.OnPlaylistUpdate | tester/publisher.go:151-164 | New segments are stored, and what became complete is sent. |
| ReorderPublisher.TesterPublisher.UpdateHlsInternal | tester/publisher.go:166-232 | The two loops compute exactly the specified update. |
| Playlists.RoundTripExactlyWhen | tester/hls.go:35-126 | For trimmed, single-line names that are not tags, decoding returns the encoded playlist if and only if its head is possible, its indices are consecutive from MediaSequence, and its durations are positive with at most six decimals. |
| Playlists.DecodeOfEncode | tester/hls.go:46-121 | In any case it returns the segments whose durations are positive after rounding, so rounded and numbered anew. |
| Playlists.DecodedIsDecodable | tester/hls.go:90-122 | No text decodes to a negative version or sequence, a non-positive target duration, or a segment duration that is not positive. |
| PlaylistRules.EncodedLines | tester/hls.go:35-56 | The lines of an encoded playlist: which they are, where each of them is, and that there are no others. |
| PlaylistRules.SpacesDoNotMatter | tester/hls.go:73-117 | White space around any line, tag or name, changes nothing. |
| PlaylistRules.ReturnsDoNotMatter | tester/hls.go:71-74 | Lines that end in CR LF decode like lines that end in LF. |
| PlaylistRules.CaseDoesNotMatter | tester/hls.go:90-94 | Tags and the value VOD may be written in any case. |
| PlaylistRules.DurationLines | tester/hls.go:110-121 | The comma after a duration may be missing; a duration on the last line is dropped. |
| PlaylistRules.TrimSpaceTakesSpaces | tester/hls.go:74-117 | Trimming takes white space from both ends, all of it and nothing else. |
| Floats.ParseInvertsPrint | client-publisher/client.go:226-236 | Every number printed for the wire, infinities and not-a-number included, reads back as itself. |
| Floats.ParseRoundsFixed | tester/hls.go:47-111 | Printed with six decimals, a number reads back rounded to them, half to even. |
| Floats.RoundedIsSameExactlyWhen | tester/hls.go:47 | Rounding leaves a number alone if and only if it has at most six decimals. |
| PlaylistRules.RoundsToNearestEven | tester/hls.go:47 | Six decimals are the nearest, and of two as near the even one. |
| PlaylistRules.FixedShape | tester/hls.go:47 | A duration is printed with digits, a point and six decimals, and a sign only when negative. |
| PlaylistRules.ExponentMovesPoint | tester/hls.go:111 | An exponent behind a number with a point moves that point, either way. |
| PlaylistRules.SpecialsRead | tester/hls.go:111 | Infinity reads in both spellings, any case, with either sign; not-a-number without one. |
| PlaylistRules.AtoiFailsExactlyWhen | tester/hls.go:95-109 | A whole number is read unless the text is empty, a lone sign, or has anything else than digits behind a sign. |
| PlaylistRules.AtoiReads | tester/hls.go:95-109 | Digits read as their value with either sign or none, and leading zeros count for nothing. |
| PlaylistRules.NoLeadingZero | tester/hls.go:42-44 | A number is printed without leading zeros. |
| Playlists.EncodePlaylist | tester/hls.go:35-56 | The string built up is the specified encoding. |
| Playlists.DecodePlaylist | tester/hls.go:61-126 | The line loop computes the specified decoding of any text. |
| Messages.GoRoundTrip | server/message.go:29-78 | For a colon-free upper-case type, any parameters and any order of walking the map, Go reads back what Go wrote. |
| Messages.GoReadsJs | client-js/src/message.ts:19-36 | Go reads what JavaScript wrote, less the empty values, so every parameter lookup agrees. |
| Messages.JsReadsGoExactlyWhen | client-js/src/message.ts:43-77 | JavaScript reads back what Go wrote if and only if no key or value has a space and all are UTF-8. |
| Messages.JsRoundTrip | client-js/src/message.ts:19-77 | JavaScript reads back what JavaScript wrote, less the empty values. |
| MessageRules.CaseOfKindIsIgnored | server/message.go:48-60 | The case of the type does not matter, in either parser; it comes out in upper case. |
| MessageRules.ColonAtTheEnd | server/message.go:49-55 | A colon at the very end stays in the type for Go, and is dropped by JavaScript. |
| MessageRules.RepeatedKeys | server/message.go:68-72 | Of repeated keys Go joins the values in order, and JavaScript keeps the last. |
| MessageRules.GoQueryFailsExactlyWhen | server/message.go:60-66 | All parameters are void for Go if and only if some part has a semicolon, or a key or value that cannot be unescaped. |
| MessageRules.BadPartVoidsAll | server/message.go:60-66 | One such part, and the message has its type and no parameters at all. |
| MessageRules.UnescapeFailsExactlyWhen | server/message.go:60-66 | A text cannot be unescaped if and only if a percent sign in it is not followed by two hexadecimal digits. |
| MessageRules.EscapeKeepsExactlyWhen | server/message.go:41 | Escaping leaves a text alone if and only if all of it is unreserved, or for JavaScript one of five marks. |
| MessageRules.EscapeWrites | client-js/src/message.ts:29 | Anything else becomes a percent sign and two upper-case hexadecimal digits, a space a plus sign in Go. |
| MessageRules.ValidUtf8ExactlyWhen | client-js/src/message.ts:64-65 | What decodeURIComponent takes is exactly the encodings of code points: no overlong forms, no surrogates, nothing beyond U+10FFFF. |
| Messages.SerialiseMessage | server/message.go:29-45 | The string built while walking the map in any order is a serialisation of the message. |
| Messages.ParseWebsocketProtocolMessage | server/message.go:48-78 | The Go parser computes the specified message of any text. |
| Messages.SerializeCdnWebSocketMessage | client-js/src/message.ts:19-36 | The array built and joined is the specified text without the empty values. |
| Messages.ParseCdnWebSocketMessage | client-js/src/message.ts:43-77 | The JavaScript parser computes the specified message of any text. |
| Mp4Boxes.FindInvertsSerialise | client-js/src/mp4-tools.ts:50-81 | On the bytes of any well-formed forest of boxes the search returns exactly the selected payloads in document order. |
| Mp4Boxes.FindBoxFollowsPath | client-js/src/mp4-tools.ts:50-81 | When interior matches are containers, these are the payloads on the path. |
| Mp4Boxes.OpenBoxEndsTheSearch | client-js/src/mp4-tools.ts:59-79 | A box whose size is given as 0 or 1, or goes past the end of the data, behind any well-formed forest, is found with everything that is left, and ends the search. |
| Mp4Boxes.ShortBoxHasNothing | client-js/src/mp4-tools.ts:59-79 | A box with a size of 2 to 7 has no contents, and the search goes on inside its header. |
| Mp4Boxes.ShortReadIsPadded | client-js/src/mp4-tools.ts:31-43 | A number cut off by the end of the data is read as if zeros followed. |
| Mp4Boxes.FindBox | client-js/src/mp4-tools.ts:50-81 | The loop with its growing offset computes the search on arbitrary bytes, and ends. |
| Mp4Boxes.EndOfBox | client-js/src/mp4-tools.ts:59-62 | The offset strictly grows for every size, 0 to 7 included. |
| Mp4Boxes.ReadIsBigEndian | client-js/src/mp4-tools.ts:31-43 | Four bytes put together by signed 32-bit shifts and ors, and corrected when negative, are their unsigned big-endian number. |
| Int32.OrOfDisjoint | client-js/src/mp4-tools.ts:31-38 | The bitwise or of patterns that do not overlap is their sum. |

## Left out

- WebSocket, HTTP and TLS: a socket is a reliable queue of frames that may stop at any point. A read limit of zero or less is no limit, and a frame above the limit ends the reading, as in the websocket library used.
- The publish registry (Redis) and `PeriodicallyAnnounce`: the registry is an arbitrary answer to each lookup.
- Signing and checking of tokens: an arbitrary set of valid pairs of token and stream for each message.
- Timers, read deadlines and heartbeat schedules: heartbeats, losses of the socket and inactivity checks are steps that may happen at any time. The rate limiter has an explicit clock that does not go back.
- CIDR ranges and IP parsing: a set of exempt addresses.
- Rounding to the width of a machine number, with its overflow and underflow: a number is an exact decimal fraction, an infinity, or not a number. It is printed in plain decimal form, never with an exponent; hexadecimal numbers and digits grouped by underscores are not read.
- The human-readable text of error replies that a reader sends: only their codes are kept.
- Letters and white space outside ASCII in case mapping and trimming.
- Overflow of ids, counters, byte totals and parsed numbers: all are mathematical integers.
- A negative `fragmentBufferMaxLength`, with which a channel cannot be made.
- FanOut.Broadcaster.Close: the call reports where it blocks instead of blocking; blocking, and who can end it, is in `RelayNetwork` and `CloseProgress`.
- FanOut.Broadcaster.AddFragment: whether a listener waits at an unbuffered channel is a parameter.
- Connection.ConnectionHandler.Run: the other threads of the connection are in `PullSender`; the source, the controllers and the token check answer through `Surroundings`, and what is asked of them is a list of effects.
- The HTTP and FFmpeg side of the tester, and `publishStream`.
- The player's media source, muxer, HLS and client classes, `parseInitSegment` and `parseStsd`: driven by browser objects and foreign callbacks, or long tables of cases.
- `client-publisher/message.go`: the same algorithm as `server/message.go`, so one model serves both.
