# Swiboe, verified in Dafny

Swiboe is a layered RPC broker. Clients register handlers under names with priorities; the server
offers a call to the handlers one after another until one handles it, and passes streamed parts and
the answer back to the caller. This project models the broker, its clients, the wire between them, and
four companions of the repository (a JSON library, a fuzzy matcher, a key chord splitter and the
scrolling of a view), and proves what they promise.

`dafny verify dfyconfig.toml` checks everything.

## What is modelled

**The protocol.** `Swiboe` says on values what the server does with one command, `RpcLoop` what a
client's loop does, `CalleeContext` and `CallerContext` what the two ends of a call do; `ApiTables` is
the priority table. `SwiboeServer`, `RpcLoop`, `CalleeContext` and `CallerContext` also hold the objects
themselves, as classes with the fields of the source, proved to do what the values say. `Network` joins
all of them by queues into one machine, with connects, hang-ups and every interleaving. `CallProtocol`
holds one call's part of that machine and its invariant, `NetworkInvariant`, `NetworkClients`,
`NetworkLoops` and `NetworkServer` show that every step keeps it, and `NetworkTheorems` draws the
consequences. `Dispatch` shows that routing is one fold over the sorted handler list, `ServerRun` when a
registration is visible. `NetworkRuns` shows that every run of the network is a run of `ServerRun` and
`Dispatch` to the server, so that what is proved there holds in the network; `NetworkBudget` counts the
answers still to come, which bounds the refusals. `NetworkBounces` follows offers that cannot be
delivered, and `NetworkWitnesses` holds runs in which the chain of handlers fails its purpose;
`NetworkAnswers` has runs that carry any answer and any cancellation to their end. `ServerCalls` tells from
the commands the server has handled which calls run and what it may send, `LoopSessions` the same of a
client's loop, `NetworkExits` when the server ends.

**The wire.** `Ipc` frames messages over sockets that take and give any number of bytes at a time.
`IpcBridge` is the server's event loop with its connections, oneshot registrations and jobs as a step
machine, `IpcBridgeHandler` the same as an object, with the jobs it hands to its thread pool. `Wire` joins
them to the rest of the network, with streams of bytes for its queues; `WireRefinement` shows that this
machine takes the network's steps, and `WireTheorems` that streaming therefore holds over the bytes.

**JSON.** `LuaValues` are Lua's tables on a heap and the trees they denote. `JsonStrings` covers string
literals and UTF-8, `JsonDecoder` the decoder, `JsonTables` and `JsonEncoder` the encoder; `JsonCycles` and
`JsonFailures` say when and how encoding fails, `JsonOrder` how members are ordered, `JsonShortest` how
parts are written, `JsonLayout` and `JsonRoundTrip` that decoding inverts it, `JsonCanonical` that texts and
values determine each other. `JsonGrammar` is the grammar of RFC 8259 with the meaning of its texts;
`JsonReads` and `JsonAccepts` show that the decoder accepts just that, and more of strings, `JsonErrors` how
it fails on other texts.

**Companions.** `FuzzyMatcher`, `KeyChords`, `BufferViews`.

Conventions: a channel is the sequence of all that was sent on it. A binary search that finds equal
priorities may answer any of their places, `pairs` and hash sets enumerate in any order, and sockets cut
the stream anywhere; the methods leave these choices open. JSON values in messages are not interpreted,
except that arguments of `core.new_rpc` are recognised. A context is never used twice for a call, which
is what its random name is for. A Lua string is a sequence of bytes, written as characters.

Where code and documentation differ, the code is followed:

- A smaller priority number is asked first (src/server/api_table.rs:28), although
  doc/rfcs/000_layered_rpc.md:83 says the opposite.
- A handler that goes away while a call is at it ends the chain, when its offer comes back or its refusal
  arrives late (src/server/swiboe.rs:243-260), although doc/rfcs/000_layered_rpc.md:93-95 has the server
  skip it and go on (`NetworkWitnesses.SkippedHandler`).
- The decoder takes more than RFC 8259 allows: raw control characters in strings, a backslash before any
  character, and anything behind the first value (`JsonAccepts.DecodesIff`).
- A column of a cursor is counted in bytes (gui/src/buffer_views.rs:212), although the comment at
  gui/src/buffer_views.rs:74 speaks of glyphs.

Properties that do not hold as one might expect, each with the exact condition:

- A client that registers a name twice makes the chain of handlers stick, and a run reaches this
  (`NetworkWitnesses.RepeatedClient`); the chain exhausts its list if and only if the clients are distinct
  and all have refused (`Dispatch.ExhaustedIffDistinct`).
- A refusal can leave out handlers that are still listed, and a run reaches this
  (`NetworkWitnesses.SkippedHandler`); it ends the chain if and only if the refusing client has no entry
  before the last (`Dispatch.RefusalEndsChainIff`). An offer that could not be delivered always ends it,
  unless the client was registered again after its disconnection (`NetworkBounces.UndeliverableOffer`).
- A registered client need not be connected (`ServerRun.StaleRegistration`). A command keeps all of them
  connected if and only if it does not register a function of a client that is not connected
  (`ServerRun.AllConnectedStaysIff`); over whole runs, all are connected if and only if every registration
  that survives in the handled log is one of a client whose connection survives
  (`ServerRun.AllConnectedIffLogged`, `ServerRun.ConnectedIffLogged`).
- A new connection can be left with the reader of an old one that had the same token
  (`IpcBridge.StaleReader`), and only by giving out a token whose reader is still outstanding
  (`IpcBridge.ReadersApartIff`). Then a call of the old client can reach the server as one of the new
  (`WireTheorems.ForeignCall`); without that the connections carry just the network's messages
  (`WireRefinement.WireCarries`).
- A cursor is kept in view only if the view is at least three lines high, and with a margin above only
  if it is at least six (`BufferViews.AlwaysVisibleIff`, `BufferViews.AlwaysMarginIff`).

## Model

| member | source | states |
|---|---|---|
| NetworkTheorems.AlwaysInvariant | src/server/swiboe.rs:94-290 | every step of server, bridge, loops, procedures and callers keeps the invariant that joins all queues of a call |
| NetworkTheorems.ObligationConservation | src/server/swiboe.rs:115-161 | in every run the obligation to answer a call exists at most once, wherever it is: call, offer, running procedure, final response on either way |
| NetworkTheorems.Streaming | src/server/swiboe.rs:94-164 | a caller has received a first part of the handlers' partial results, handler after handler in order of emission, then at most one final response and nothing behind it; with the final response no part is missing |
| NetworkTheorems.AnsweredIsOver | src/server/swiboe.rs:115-126 | once the caller has its final response, no copy of the call, offer, procedure or response is left anywhere |
| NetworkTheorems.WaitTakesAll | src/client/rpc/client.rs:87-90 | waiting takes exactly the partial results and then the final one |
| NetworkBudget.StepBudget | src/client/rpc_loop.rs:79-143 | no step but the server's turn adds to the calls on their way or the final words still to come on a call |
| NetworkBudget.TurnBudget | src/server/swiboe.rs:168-289 | a turn of the server takes out the final words in its command and adds one for each offer it sends |
| NetworkRuns.StepSimulated | src/server/swiboe.rs:168-289 | every step of the network is, to the server's queue, one more command, one turn, or nothing |
| NetworkRuns.LeadsHandles | src/server/swiboe.rs:168-289 | along a run of its queue the server handles just the commands of the log, in order, and sends what they make it send |
| NetworkRuns.NetworkTriedInOrder | src/server/swiboe.rs:127-158 | in every run of all parts: with distinct handlers and a list left alone, the handlers offered a call are a prefix of the list in order of priority, each once, and the caller is sent the first answer, or `NotHandled` when all refuse; there are never more refusals than handlers |
| NetworkBounces.BounceIsLate | src/server/ipc_bridge.rs:343-350 | when an offer comes back, the disconnection of its client has been handled, and that client is the call's callee |
| NetworkBounces.UndeliverableOffer | src/server/swiboe.rs:243-260 | in every run an offer that comes back goes to a next handler only if its client was registered after its own disconnection; otherwise the caller is told `NotHandled`, whatever handlers are left |
| NetworkWitnesses.RepeatedClient | src/server/api_table.rs:55-63 | a reachable state of all parts in which a client is listed twice and its refusal offers the call to it again and changes nothing |
| NetworkWitnesses.SkippedHandler | src/server/swiboe.rs:134-158 | a reachable state of all parts in which an offer comes back, another handler is listed and live, and the caller is told `NotHandled` |
| NetworkAnswers.AnyAnswer | src/client/rpc/server.rs:76-106 | for any partial results and any result but a refusal, some run of all parts brings the caller exactly these, in order |
| NetworkAnswers.AnyCancel | src/client/rpc_loop.rs:105-111 | after any partial results a caller can cancel, and then the procedure's next look at its context ends it without another word |
| NetworkExits.ServerUpIff | src/server/plugin_core.rs:26-51 | in every run the server is up until it handles a `Quit` or a core call it cannot serve; each `Quit` follows a handled `core.exit`, and each `core.exit` is answered and puts one on the queue |
| CallProtocol.CallOffered | src/server/swiboe.rs:201-218 | taking in a call and offering it to the first handler keeps the invariant of the call |
| CallProtocol.CallAnswered | src/server/swiboe.rs:190-200 | the server's own answer to a call keeps the invariant |
| CallProtocol.OfferTaken | src/client/rpc_loop.rs:88-101 | a loop that knows the function turns an offer into one procedure |
| CallProtocol.OfferDropped | src/client/rpc_loop.rs:102-104 | a loop that does not know the function yet loses the offer, and the invariant still holds |
| CallProtocol.Emits | src/client/rpc/server.rs:76-106 | a partial or final result of a procedure keeps the invariant |
| CallProtocol.PartialForwarded | src/server/swiboe.rs:104-114 | passing a part to the caller keeps order and completeness |
| CallProtocol.AnswerForwarded | src/server/swiboe.rs:116-126 | an answer passed to the caller uses up the obligation |
| CallProtocol.RefusalPassedOn | src/server/swiboe.rs:138-147 | a refusal that is not the last is swallowed and becomes the next offer |
| CallProtocol.RefusalForwarded | src/server/swiboe.rs:148-157 | the last refusal goes to the caller, and the entry that stays cannot answer again |
| CallProtocol.BouncePassedOn | src/server/swiboe.rs:250-255 | an offer that could not be delivered counts as a refusal |
| CallProtocol.BounceExhausted | src/server/swiboe.rs:250-255 | an undeliverable offer to the last handler is answered for it |
| CallProtocol.CallerGone | src/server/swiboe.rs:266-284 | a caller that hangs up keeps the invariant of its calls |
| CallProtocol.EntryDropped | src/server/swiboe.rs:269-283 | dropping the entries of a caller that has gone keeps the invariant |
| NetworkLoops.LoopTurnsKeeps | src/client/rpc_loop.rs:79-143 | any turn of any client's loop keeps the invariant of every call |
| NetworkServer.ServerTurnsKeeps | src/server/swiboe.rs:168-289 | any turn of the server keeps the invariant of every call |
| NetworkInvariant.BridgeSendsKeeps | src/server/ipc_bridge.rs:200-225 | delivering a message, or returning it as failed, keeps the invariant |
| NetworkInvariant.HangUpKeeps | src/server/ipc_bridge.rs:343-350 | a hang-up at any moment keeps the invariant |
| NetworkClients.CalleeActsKeeps | src/client/rpc/server.rs:51-106 | any operation of a procedure on its context keeps the invariant |
| NetworkClients.AppCallsKeeps | src/client/rpc/client.rs:20-46 | a new call starts with exactly one obligation |
| SwiboeServer.CorePlugin.Call | src/server/plugin_core.rs:26-51 | what `core.exit` and `core.new_rpc` answer and put on the server's own queue |
| SwiboeServer.Handler.OnRpcCancel | src/server/swiboe.rs:81-92 | the handler object sends just what the value model says and changes nothing |
| SwiboeServer.Handler.OnRpcResponse | src/server/swiboe.rs:94-164 | the whole new state and all messages of a response, as in the value model |
| SwiboeServer.Handler.OnClientDisconnected | src/server/swiboe.rs:266-287 | the loop removes exactly the caller's entries, and the table the client's handlers |
| SwiboeServer.Handler.Handle | src/server/swiboe.rs:168-289 | every command's new state, messages, self-enqueued commands and way to go on, as in the value model |
| Dispatch.HandlingIsWalk | src/server/swiboe.rs:127-158 | over any commands that leave the list alone, all the server sends about a call is the walk over what the handlers said |
| Dispatch.DispatchRefinesFold | src/server/swiboe.rs:185-218 | with distinct clients, all the server sends about a call is a simple fold over the priority-sorted list |
| Dispatch.TriedInOrder | src/server/swiboe.rs:127-158 | the handlers offered a call are a prefix of the sorted list, each once; the caller gets the first answer, or `NotHandled` when all refuse |
| Dispatch.ExhaustedIffDistinct | src/server/api_table.rs:55-63 | refusals reach the caller if and only if the clients are distinct and all were asked |
| Dispatch.WalkSticks | src/server/api_table.rs:57-60 | with a client listed twice nothing behind its second place is ever asked and no `NotHandled` is sent |
| Dispatch.RefusalEndsChainIff | src/server/swiboe.rs:134-158 | one refusal ends the chain if and only if the refusing client has no entry before the last |
| Dispatch.CancelReachesWorking | src/server/swiboe.rs:81-92 | a cancellation goes to just the client the call was offered to last, and nowhere after an answer |
| Dispatch.ReachedIsSound | src/server/swiboe.rs:168-289 | in every reachable state entries are kept under their call's context and the table is sorted |
| ServerCalls.RunningIffLogged | src/server/swiboe.rs:185-218 | in every run an entry is kept for a call if and only if a handled command took it up, and no answer, disconnection of its caller or other call under its context was handled since |
| ServerCalls.SentForRunningCalls | src/server/swiboe.rs:81-164 | every message sent in any run has its reason in the log: an offer is of a running call and goes to a registered client, a response goes to the caller of a call that ran, a cancellation was asked for |
| ServerCalls.GoneCallerIsSilent | src/server/swiboe.rs:266-287 | after a client's disconnection, and until its next call, no entry is its own, no call of it is offered and no response is sent to it |
| ServerCalls.OfferedOrUnknown | src/server/swiboe.rs:201-231 | a call goes to a registered handler with the least priority number, or is answered as unknown if there is none |
| ServerRun.TableFollowsLog | src/server/swiboe.rs:171-184 | the table is always one that the handled registrations and disconnections can produce |
| ServerRun.EntryIffRegistered | src/server/swiboe.rs:171-184 | an entry is in the table if and only if it was registered and its client not disconnected afterwards |
| ServerRun.RegisteredBeforeReply | src/server/plugin_core.rs:33-43 | once the reply to `core.new_rpc` is out, every later command finds the registration, unless the client's disconnection is handled in between |
| ServerRun.GoneAfterDisconnect | src/server/swiboe.rs:266-287 | a disconnection leaves no entry of the client behind, except from a registration handled later |
| ServerRun.ConnectedIffLogged | src/server/swiboe.rs:261-267 | a client counts as connected if and only if the handled log connects it and does not disconnect it afterwards |
| ServerRun.AllConnectedIffLogged | src/server/swiboe.rs:171-184 | all registered clients are connected if and only if every surviving registration is of a client whose connection survives |
| ServerRun.AllConnectedStaysIff | src/server/swiboe.rs:171-184 | a command keeps all registered clients connected if and only if it does not register a function of a client that is not connected |
| ServerRun.StaleRegistration | src/server/plugin_core.rs:40-43 | a reachable state in which a client is registered and not connected |
| ApiTables.ApiTable.Register | src/server/api_table.rs:26-33 | inserts at a place a binary search may answer, and keeps every list non-empty and sorted |
| ApiTables.ApiTable.DeregisterByClient | src/server/api_table.rs:35-46 | the two loops leave exactly the other clients' entries and no empty list |
| ApiTables.TableHoldsSurvivors | src/server/api_table.rs:26-46 | after any history every list is sorted, non-empty, and holds exactly the registrations not undone since |
| ApiTables.NameHasSurvivors | src/server/api_table.rs:43-45 | a name is in the table if and only if a registration survives |
| ApiTables.GetFirstIsLeast | src/server/api_table.rs:48-53 | the first entry has the least priority number of all surviving registrations |
| ApiTables.GetNextFollowsFirst | src/server/api_table.rs:55-63 | the next entry is the one behind the client's first entry, none if that is last or missing |
| RpcLoop.Handler.Handle | src/client/rpc_loop.rs:79-143 | the loop object's new state, messages, started procedure, cancellation and passed response, as in the value model |
| LoopSessions.StartedIff | src/client/rpc_loop.rs:88-104 | after any commands, a procedure is started if and only if a call is received whose function was registered before, and with just that call |
| LoopSessions.CancelledIff | src/client/rpc_loop.rs:105-111 | a cancellation reaches just the procedure started last under its context and not cancelled since |
| LoopSessions.AnsweredIff | src/client/rpc_loop.rs:112-119 | a response reaches just the one who waits for the last call sent under its context |
| LoopSessions.SentIff | src/client/rpc_loop.rs:123-143 | a message is sent if and only if the client's own side asks for it, once, and the loop ends if and only if it is told to |
| CalleeContext.SessionLanguage | src/client/rpc/server.rs:51-122 | whatever a procedure does and whenever it is cancelled, it emits partial results and then at most one final one, which ends it |
| CalleeContext.NothingAfterCancel | src/client/rpc/server.rs:51-74 | after a cancellation is seen nothing is emitted and the context is never alive again |
| CalleeContext.FinalResultIffFinishedAlive | src/client/rpc/server.rs:95-106 | a final result is emitted if and only if the first `finish` is given just that result before any cancellation is seen |
| CalleeContext.PartialsAreUpdates | src/client/rpc/server.rs:76-86 | the partial results of a session are exactly the values of the updates performed alive, in order |
| CalleeContext.StateIff | src/client/rpc/server.rs:51-74 | a context is cancelled if and only if some poll has shown something, and finished if and only if none has and something finished it |
| CalleeContext.PollsInTurn | src/client/rpc/server.rs:51-65 | polls show the queued commands first, one each, and then a sender that is gone |
| CalleeContext.DoneStaysDone | src/client/rpc/server.rs:67-74 | a finished or cancelled context stays so and stays silent, though one may overwrite the other |
| CalleeContext.Context.UpdateState | src/client/rpc/server.rs:51-65 | a poll that shows a command or a closed channel cancels, and takes the command it shows |
| CalleeContext.Context.CheckLiveness | src/client/rpc/server.rs:67-74 | succeeds exactly when alive after polling |
| CalleeContext.Context.Update | src/client/rpc/server.rs:76-86 | sends the part exactly when alive and the loop is there, and says whether it did |
| CalleeContext.Context.Cancelled | src/client/rpc/server.rs:89-92 | tells whether the context is cancelled after polling |
| CalleeContext.Context.Finish | src/client/rpc/server.rs:95-106 | sends the final result exactly when alive and the loop is there, and ends the context |
| CallerContext.Context.Recv | src/client/rpc/client.rs:71-84 | takes one response, or none once the result is there |
| CallerContext.Context.TryRecv | src/client/rpc/client.rs:48-68 | the same without waiting |
| CallerContext.Context.Wait | src/client/rpc/client.rs:87-90 | drops the partial results and answers the first final one, or reports the lost connection |
| CallerContext.ReceivedInOrder | src/client/rpc/client.rs:48-84 | any number of receives give the partial results in order, then always nothing with the final result stored, or always the lost connection if there is none |
| Ipc.ParseLengthInverts | src/ipc.rs:24-29 | reading a length gives it modulo 2^32, so inverts writing it if and only if it fits 32 bits |
| Ipc.LengthPrefixInverts | src/ipc.rs:92-101 | every four bytes are the prefix of the length they say |
| Ipc.LowestByteFirst | src/ipc.rs:24-29 | the length is written with its lowest byte first |
| Ipc.UnframeFrame | src/ipc.rs:68-73 | a frame at the front is taken out whole, whatever follows |
| Ipc.UnframePartial | src/ipc.rs:64-71 | a proper beginning of a frame is not taken for a message |
| Ipc.StreamRefinement | src/ipc.rs:61-145 | for all bodies queued, cuts of writes and chunks of reads: results come in order, each body takes its own frame even if malformed, bytes not returned are the frames of the rest, and at rest nothing is missing |
| Ipc.MessagesInOrder | src/ipc.rs:61-145 | with a codec that inverts itself the messages read are those queued, in order |
| Ipc.Writer.QueueMessage | src/ipc.rs:119-124 | exactly one frame is added behind what is pending |
| Ipc.Writer.TryWrite | src/ipc.rs:126-145 | moves first bytes of what is pending to the socket, and says `AllWritten` if and only if nothing is left |
| Ipc.Writer.WriteMessage | src/ipc.rs:112-117 | the blocking form writes the whole frame, or fails and leaves a first part of it on the socket |
| Ipc.Reader.TryReadMessage | src/ipc.rs:61-76 | returns the first complete frame's message of all that came in, drops exactly that frame, and keeps the rest |
| Ipc.Reader.ReadMessage | src/ipc.rs:46-57 | the blocking form takes exactly one frame, or all there is and fails when the stream ends early |
| Ipc.TryWriteIsStep | src/ipc.rs:126-145 | what the writer does is a step of the stream model |
| Ipc.TryReadIsStep | src/ipc.rs:61-76 | what the reader does is a step of the stream model |
| IpcBridge.NoLostWakeup | src/server/ipc_bridge.rs:168-341 | in every run a live connection with bytes to write is armed, has a write job, or a command to arm it is queued; its reader is there if and only if it is armed for reading |
| IpcBridge.NoLostReader | src/server/ipc_bridge.rs:226-317 | in every run a live connection is armed for reading and has its reader, or a read job for its token runs, or the reader of one is on its way back |
| IpcBridge.OneEventPerArming | src/server/ipc_bridge.rs:168-183 | between two read events for a token, and between two write events, something has armed it again |
| IpcBridge.NoMisdelivery | src/server/ipc_bridge.rs:200-225 | in every run, reused tokens or not, the messages for a client are queued on its own connection and then come back as failed, in order and none lost; its socket's bytes are just their frames |
| IpcBridge.NothingSkipped | src/server/ipc_bridge.rs:197-225 | in every run the messages handled, and then those queued, are just those the server has sent, in order |
| IpcBridge.ReadersApartIff | src/server/ipc_bridge.rs:226-238 | a step keeps every connection with its own reader if and only if it gives out no token whose reader is outstanding |
| IpcBridge.StaleReader | src/server/ipc_bridge.rs:226-238 | a reachable state in which a connection holds another client's reader |
| IpcBridgeHandler.IpcBridge.NewClient | src/server/ipc_bridge.rs:113-166 | the object takes the machine's connecting step |
| IpcBridgeHandler.IpcBridge.ReregisterForWriting | src/server/ipc_bridge.rs:168-183 | arms the connection of the token, if there is one, and nothing else |
| IpcBridgeHandler.IpcBridge.Notify | src/server/ipc_bridge.rs:197-244 | the object takes the machine's step for a command |
| IpcBridgeHandler.IpcBridge.Ready | src/server/ipc_bridge.rs:268-351 | the object takes the machine's step for an event |
| IpcBridgeHandler.ReadJob | src/server/ipc_bridge.rs:276-317 | a read job sends on every complete message that came in, in order, leaves no complete frame in its reader, and gives the reader back |
| IpcBridgeHandler.WriteJob | src/server/ipc_bridge.rs:325-339 | a write job asks to be armed again if and only if bytes are left |
| IpcBridgeHandler.WriteJobIsStep | src/server/ipc_bridge.rs:325-339 | what a write job does is the machine's step |
| Wire.ReadJobIsStep | src/server/ipc_bridge.rs:276-317 | what a read job does, with the messages it has taken out of the bytes, is a step of the joined machine |
| WireRefinement.EventRefines | src/server/ipc_bridge.rs:197-351 | every step of the event loop is a connect, a hang-up, one message sent or returned, or nothing to the network, and the bytes stay those of the messages on their way |
| WireRefinement.JobRefines | src/server/ipc_bridge.rs:276-317 | what a read job takes out of a client's bytes, however they were cut, are the client's messages arriving one by one |
| WireRefinement.ClientReadRefines | src/client/mod.rs:86-94 | what a client reads off its socket is the first message on its way to it |
| WireRefinement.InsideRefines | src/client/mod.rs:96-101 | whatever else happens is the same step of the network, its messages framed onto the connections |
| WireRefinement.StepRefines | src/server/ipc_bridge.rs:197-351 | each step over the bytes is made of steps of the network |
| WireRefinement.WireCarries | src/server/ipc_bridge.rs:197-351 | every run over the bytes that gives out no token with an outstanding reader leads to a state that a run of the network reaches, the bytes under way being just the frames of its messages, client by client |
| WireRefinement.NothingHidden | src/ipc.rs:61-145 | no message is on its way if and only if no bytes are |
| WireTheorems.StreamingOverWire | src/server/swiboe.rs:94-164 | streaming holds over the bytes: parts in order, at most one final response behind them, none missing then |
| WireTheorems.ForeignCall | src/server/ipc_bridge.rs:226-238 | a reachable state over the bytes in which a call that only one client has made is in the server's queue as another client's |
| JsonStrings.Utf8IsWellFormed | term_gui/json.lua:304-365 | a scalar value is written as the octets of section 3 of RFC 3629, a surrogate as a question mark |
| JsonStrings.Utf8IsUnique | term_gui/json.lua:304-365 | every octet sequence of section 4 of RFC 3629 is the encoding of what it denotes |
| JsonStrings.GrokString | term_gui/json.lua:440-502 | the loop computes what the value model reads |
| JsonStrings.StringRoundTrip | term_gui/json.lua:683-714 | `grok_string` inverts `json_string_literal` on every string, wherever the literal stands |
| JsonStrings.LiteralHasNoControls | term_gui/json.lua:703-714 | a literal holds no raw control character, as section 7 of RFC 8259 demands |
| JsonShortest.LiteralIsShortest | term_gui/json.lua:683-714 | no string of RFC 8259 with the same meaning is shorter than the literal |
| JsonShortest.ControlEscape | term_gui/json.lua:683-700 | a control character has its short form if there is one, and else four lower-case digits |
| JsonShortest.HexDigits | term_gui/json.lua:473-490 | sixteen digits, letters in either case, stand for the numbers below sixteen, and no other character is one |
| JsonStrings.EscapedScalarStep | term_gui/json.lua:473-490 | one `\uXXXX` or surrogate pair, in any letter case, adds the octets of its scalar value |
| JsonStrings.LoneSurrogateStep | term_gui/json.lua:480-490 | a surrogate without its partner adds a question mark |
| JsonStrings.EscapesDecode | term_gui/json.lua:473-497 | any text of escaped scalar values decodes to its UTF-8 form |
| LuaValues.IntOfDecimal | term_gui/json.lua:840-840 | printing an integer and reading it back gives it |
| JsonDecoder.GrokOne | term_gui/json.lua:604-636 | dispatches on the first character behind the whitespace as the value model does |
| JsonDecoder.GrokObject | term_gui/json.lua:516-563 | the object loop computes what the value model reads, errors included |
| JsonDecoder.GrokArray | term_gui/json.lua:565-601 | the array loop computes what the value model reads, errors included |
| JsonReads.GrammarDecodes | term_gui/json.lua:638-681 | every text of the grammar, with blanks at each place section 2 of RFC 8259 allows them, decodes to what it means, numbers by their places, strings by their escapes, the last of equal keys counting |
| JsonAccepts.DecodesIff | term_gui/json.lua:604-681 | `decode` gives `v` if and only if the text begins with one of the grammar that means `v` and is not continued by what follows |
| JsonAccepts.RfcTextDecodes | term_gui/json.lua:638-681 | every JSON text of RFC 8259 decodes to what it means |
| JsonErrors.ArrayErrors | term_gui/json.lua:565-601 | what an array fails with, at any depth and behind any complete items: the text ends, an item fails, an item is followed by neither comma nor bracket |
| JsonErrors.ArrayWaitsAgain | term_gui/json.lua:578-599 | behind any items, each with its comma, and any blanks, the array waits for the next |
| JsonErrors.ObjectErrors | term_gui/json.lua:516-563 | what an object fails with: the text ends, there is no key, no colon, a value fails, a value is followed by neither comma nor brace |
| JsonErrors.ObjectWaitsAgain | term_gui/json.lua:528-560 | behind any members, each with its comma, and any blanks, the object waits for the next |
| JsonErrors.NoValue | term_gui/json.lua:604-636 | where a text ends, or a character stands that begins no value, or a minus without digit |
| JsonErrors.FirstChecks | term_gui/json.lua:638-681 | a text counts as HTML if and only if its first solid character is an angle bracket, and as not UTF-8 if and only if it is not and one of its first two places is NUL |
| JsonAccepts.NumeralFound | term_gui/json.lua:402-437 | `grok_number` takes the longest numeral of section 6 of RFC 8259 |
| JsonAccepts.StringFound | term_gui/json.lua:440-502 | `grok_string` reads nothing but characters and escapes, each for what it means |
| JsonTables.ObjectOrArray | term_gui/json.lua:716-798 | the verdict, keys and entries are the same for every order of enumeration |
| JsonTables.NumbersAsStrings | term_gui/json.lua:786-794 | number keys become string keys, or the conflict is reported, exactly when one exists |
| JsonTables.SortingIsUnique | term_gui/json.lua:760-781 | keys have one sorted arrangement, so the sorting routine does not matter |
| JsonOrder.MembersInOrder | term_gui/json.lua:760-797 | members are written with a string key before those it begins and those with a higher byte where they first differ, and then the number keys by their numbers, none left out |
| JsonOrder.BeforeByByte | term_gui/json.lua:760-781 | where two keys go on differently the lower byte decides, whatever surrounds it |
| JsonOrder.TwoMembersText | term_gui/json.lua:894-921 | the very text of an object of two numbers, compact and pretty |
| JsonShortest.TwoItemsText | term_gui/json.lua:868-885 | the very text of a list of two numbers, compact and pretty |
| JsonShortest.NestedText | term_gui/json.lua:889-921 | the very text of an object within an object, each level one indent further |
| JsonShortest.EmptyText | term_gui/json.lua:928-931 | an empty table is written as an empty list |
| JsonShortest.DecimalIsNumeral | term_gui/json.lua:840-840 | an integer is written as its numeral, by the places of its digits |
| JsonEncoder.Encoder.EncodeValue | term_gui/json.lua:809-935 | computes the value model's text or error; a value that is encoded leaves `parents` as it was |
| JsonEncoder.Encoder.EncodeItems | term_gui/json.lua:875-878 | the items loop, holes included |
| JsonEncoder.Encoder.EncodeMembers | term_gui/json.lua:894-921 | the members loops, compact and pretty |
| JsonEncoder.Encode | term_gui/json.lua:938-943 | `encode` is deterministic, whatever the order of `pairs` |
| JsonEncoder.EncodePretty | term_gui/json.lua:945-950 | `encode_pretty` is so too, with an indent of two spaces |
| JsonCycles.EncodeFailsIff | term_gui/json.lua:862-866 | encoding any finite table graph ends, and fails if and only if a walk comes back to one of its tables or to a table that cannot be encoded for itself |
| JsonCycles.PlainFailsIffCyclic | term_gui/json.lua:862-866 | on tables with string keys only or positive integer keys only, encoding fails if and only if a cycle can be reached |
| JsonCycles.ObjectHoldsValues | term_gui/json.lua:776-797 | an object is written from exactly the values of its table |
| JsonFailures.ErrorMeans | term_gui/json.lua:716-866 | each error is explained by a walk: it comes back to one of its tables, or to a table with a key of another type, with a number key that prints like a string key, or with a value that has no JSON form |
| JsonFailures.ShapeIff | term_gui/json.lua:716-798 | what a table is encoded as, told from its keys alone |
| JsonRoundTrip.RoundTrip | term_gui/json.lua:638-681 | decoding the compact or pretty text of a finite value with string keys only or positive integer keys only per table gives the value back |
| JsonRoundTrip.EncodeSucceeds | term_gui/json.lua:809-935 | every such value encodes, shared tables included |
| JsonRoundTrip.ItemsInvert | term_gui/json.lua:578-599 | reading the items of an array back, nulls leaving holes |
| JsonRoundTrip.MembersInvert | term_gui/json.lua:528-560 | reading the members of an object back |
| JsonLayout.NumberInverts | term_gui/json.lua:402-437 | `grok_number` reads back a printed integer where it ends |
| JsonCanonical.SameTextIffSameValue | term_gui/json.lua:938-950 | two values have the same text if and only if they are structurally equal, whatever their heaps and sharing |
| FuzzyMatcher.IsSubsequence | subsequence_match/src/lib.rs:148-171 | finds an embedding if and only if there is one, and then the one nowhere later than any other |
| FuzzyMatcher.EarliestScoresLeast | subsequence_match/src/lib.rs:106-110 | no embedding has a lower score |
| FuzzyMatcher.SumCountsPlaces | subsequence_match/src/lib.rs:106-110 | a letter found later by some places raises the score by just as many |
| FuzzyMatcher.SameLetterIff | subsequence_match/src/lib.rs:148-171 | without regard to case, letters match if and only if they are equal or the two cases of one letter |
| FuzzyMatcher.CaseDoesNotMatter | subsequence_match/src/lib.rs:148-171 | changing the case of letters in query or candidate changes no embedding |
| FuzzyMatcher.MakeQueryBitset | subsequence_match/src/lib.rs:126-135 | the bits are those of the folded ASCII letters |
| FuzzyMatcher.BitsTellApart | subsequence_match/src/lib.rs:122-135 | bits tell all characters apart but the cases of a letter and the two at the ends |
| FuzzyMatcher.FilterKeepsMatches | subsequence_match/src/lib.rs:48-50 | a query that matches always passes the filter |
| FuzzyMatcher.CandidateSet.Insert | subsequence_match/src/lib.rs:92-94 | adds the text, once |
| FuzzyMatcher.CandidateSet.Query | subsequence_match/src/lib.rs:96-114 | each matching text exactly once with its earliest embedding, sorted by score, as without the filter |
| FuzzyMatcher.AnswersAgree | subsequence_match/src/lib.rs:96-114 | the results do not depend on the order of the hash set |
| KeyChords.SplitByKeys | gui/src/keymap_handler.rs:13-42 | succeeds if and only if the text is a row of keys and at most one bracket left open, and gives those keys |
| KeyChords.SplitComplete | gui/src/keymap_handler.rs:13-42 | a text splits in one way only |
| KeyChords.SplitInvertsConcat | gui/src/keymap_handler.rs:13-42 | splitting undoes joining keys |
| BufferViews.BufferView.Scroll | gui/src/buffer_views.rs:158-162 | the top line is moved and kept in the buffer |
| BufferViews.BufferView.MoveCursor | gui/src/buffer_views.rs:205-225 | the cursor comes as near as it can to where it is wanted, and the view follows it |
| BufferViews.MoveCursor | gui/src/buffer_views.rs:202-235 | one view with the cursor moves and no other, or the cursor is unknown and nothing changes |
| BufferViews.AlwaysVisibleIff | gui/src/buffer_views.rs:217-225 | the cursor is always kept in view with three lines below if and only if the view is at least three lines high |
| BufferViews.AlwaysMarginIff | gui/src/buffer_views.rs:217-225 | a margin above is always kept too if and only if it is at least six lines high |
| BufferViews.FollowedTwice | gui/src/buffer_views.rs:217-225 | following a cursor that has not moved changes nothing |
| BufferViews.ReachedIsNearest | gui/src/buffer_views.rs:208-214 | the cursor stands on the line nearest to the wanted one, and there on the nearest column |
| BufferViews.ClampTopIsNearest | gui/src/buffer_views.rs:158-162 | the top line is the one of the buffer nearest to where it was to go |
| BufferViews.FollowedIsNearest | gui/src/buffer_views.rs:217-225 | in a view of six lines or more the cursor is shown with its margins by the least scrolling |
| BufferViews.MovesAddUp | gui/src/buffer_views.rs:205-207 | what is wanted is the sum of all moves, lines and columns each for themselves |

## Left out

- Sockets, polling, thread pools and threads: what is kept is the order of queues, oneshot arming and
  every interleaving of steps.
- The JSON text of messages: `Ipc` is proved for any codec, and assumes of it only that parsing inverts
  serialising and bodies are shorter than 2^32 bytes.
- Naming of contexts: a context is assumed to be new for each call.
- Panics, failing `unwrap`s, poisoned locks and errors of sockets inside jobs: a panic of the server ends
  it, the others are not part of the machines.
- NetworkTheorems.ObligationConservation: says at most one, not exactly one, because a callee that
  disconnects or a procedure that is cancelled need not answer and the code does not answer for it.
- JsonRoundTrip.RoundTrip: is about integers of any size, which Lua prints exactly only within its own
  range; numbers with fractions or exponents, infinities and NaN, tables with mixed or non-positive keys
  and tables marked by `newArray` or `newObject` lose information when printed and are not covered.
- JsonCanonical.SameTextIffSameValue: is about the same values, so about integers of any size, where Lua
  prints exactly only those of its own range.
- JsonTables.ObjectOrArray: leaves out number keys that are not integers and the option
  `noKeyConversion`; strings are ordered byte by byte, as in the C locale.
- Options `align_keys` and `strictTypes` of the JSON library.
- IpcBridge.NoLostWakeup and `IpcBridge.NoLostReader`: say that a wakeup is on its way, not that it comes.
- `KeymapHandler` and `Key::from_str`: they compare sets of keys and fold letter case.
- FuzzyMatcher.IsSubsequence: returns indices of characters, not of bytes, as the source does; the score
  is an unbounded sum.
- Overflow of serials, scores and wanted positions: integers are unbounded.
- Buffers, logs, file listing, the C interface, the Python wrapper and all drawing.
