# Connections, channels and dumps of flockwave-conn

This project models the parts of the library in which several things have to be right at
once, and proves what they are for:

* **Dumps.** `PyText` holds the Python text operations that the code relies on, `Hexdump` the
  printer and the parser, `RoundTrip` and `DumpFormats` what the parser makes of each format,
  `LogTranscript` the logging middleware whose lines can be turned back into the traffic, and
  `DumpLayout` says what every character of a dump and of a log shows.
* **Lifecycle.** `Connection` is the stateful base class, `Lifecycle` runs any number of its
  `open` and `close` calls next to each other, `Returns` says when they may return, and
  `FileConnection`, `SocketConnection`,
  `TaskConnection`, `TrioListener` and `Supervision` stand on the proved machine.
* **Messages.** `MessageChannel` over a loopback connection pair, `LossyChannel` around any channel,
  `Rpc` for request and response matching, `SerialStream` for the threaded serial sender.

## How to read it

An object that the source updates in place is a class here, and its methods are the pieces of
the source's methods between two awaits. Each is proved against a function on values, and the
statements over whole runs are about those functions. A run is a list of events; it is arbitrary,
so it stands for any number of tasks in any order. A body that fails and one that is cancelled
look the same to the lifecycle, which is how the source treats them.

Awaits: a wait for a flag becomes runnable when the flag turns true and stays so even if the flag
turns back before the task runs. Starting a body (`_open`, `_close`) and ending it are two separate
events even where a body never gives up control, so the runs here include all those of the code.
A task started with `nursery.start` makes the starter fail exactly when it ends without having
reported that it started. Signal handlers do not raise and do not call back.

"One of each" is the hypothesis that at most one `close` is past base.py:291 or 293 and at most one
`open` is past base.py:316 or 318 at any time (joining calls and early returns do not count). It is
needed: `Lifecycle.TwoClosersOverlap` is a run of two closers without it. `Lifecycle.OrderExactly`
needs no hypothesis and says exactly which runs are orderly.

## Findings

* `restore` does not undo `hexdump` on all data. It raises `IndexError` for the empty string and
  when the last row is a single blank, and `ValueError` once an address has 32 digits; on all other
  data it does (`RoundTrip.RoundTrip`).
* A task-backed connection can be DISCONNECTED with its task running, if a closer is cancelled while
  it waits for the task (`TaskConnection.CancelledCloserLeavesRun`). It happens exactly when a `_close`
  that found no cancel scope returns while the closing event is not set (`TaskConnection.IdleExactly`).
  Listeners do not have this problem.
* The documentation of `supervise` (supervision.py:228-229) says that exceptions raised by the policy
  are propagated. An exception raised by the informative `"open"` call, made inside the `try` block
  (supervision.py:254), is handed to the policy as an error instead, and the loop may go on
  (`Supervision.InformingErrorIsFedBack`). The loop does what is documented if and only if no `"open"`
  call made in it raises (`Supervision.DocumentedExactly`). The model follows the code.
* Without a configured broadcast port, broadcasts are documented to use the port that the socket is
  bound to (socket.py:594-595). A connection reopened on another port keeps the old one
  (`SocketConnection.ReopenedOnAnotherPort`): the two agree if and only if the port bound to is the
  first that any socket of the connection was bound to (`SocketConnection.BoundPortExactly`).
* A write that raises in the wrapped connection has been logged by then (log.py:133-136). The logged
  writes are those sent if and only if no write of any bytes raised (`LogTranscript.SentExactly`).
* A message channel ends for its reader as soon as a message is encoded as no data at all, although
  both ends are open (`MessageChannel.EmptyEncodingEnds`), and on all runs only then
  (`MessageChannel.EndsEarlyExactly`). Only then or with a parser that does not invert the encoder are
  messages lost or changed (`MessageChannel.ConservedExactly`).

## Model

| member | source | states |
|---|---|---|
| Hexdump.ChunkSequence | src/flockwave/connections/utils/hexdump.py:118-131 | yields the chunks of a sequence, which `ConcatChunks` and `RowsIndexed` describe |
| Hexdump.ConcatChunks | src/flockwave/connections/utils/hexdump.py:118-131 | the chunks put together again are the sequence |
| Hexdump.RowsIndexed | src/flockwave/connections/utils/hexdump.py:182-185 | row k has the 16 bytes from 16k on, only the last row is shorter, none is empty |
| Hexdump.ChunkRead | src/flockwave/connections/utils/hexdump.py:134-140 | reading a file with full reads yields the same rows as cutting its contents, and ends |
| Hexdump.RenderRow | src/flockwave/connections/utils/hexdump.py:184-206 | the line built step by step is address, hex columns, padding and gutter |
| Hexdump.RenderRows | src/flockwave/connections/utils/hexdump.py:182-206 | one line for each row, with its address |
| Hexdump.HexdumpBytes | src/flockwave/connections/utils/hexdump.py:226-230 | the joined lines for a byte string |
| Hexdump.HexdumpFile | src/flockwave/connections/utils/hexdump.py:143-150 | a file gives the same text as its contents |
| Hexdump.RestoreOneLine | src/flockwave/connections/utils/hexdump.py:258-275 | address stripping, choice of layout and decoding of one line, with its exceptions |
| Hexdump.Restore | src/flockwave/connections/utils/hexdump.py:238-276 | the loop concatenates what the lines decode to, and raises what the first bad line raises |
| RoundTrip.GutterColumn | src/flockwave/connections/utils/hexdump.py:187-204 | for every row length the gutter starts 50 columns after the address, and row and address can be read off the line |
| RoundTrip.DecodeNative | src/flockwave/connections/utils/hexdump.py:264-269 | rows of 9 to 16 bytes decode by the native columns |
| RoundTrip.DecodeFarManager | src/flockwave/connections/utils/hexdump.py:270-271 | shorter rows with their gutter are taken for Far Manager rows, and decode all the same |
| RoundTrip.DecodeScapy | src/flockwave/connections/utils/hexdump.py:272-273 | rows of which only the hex part is left are taken for Scapy rows, and decode all the same |
| RoundTrip.RestoreRow | src/flockwave/connections/utils/hexdump.py:258-275 | a printed row decodes to its bytes whatever is left of its gutter, colons included |
| RoundTrip.RestoreWideRow | src/flockwave/connections/utils/hexdump.py:259-261 | a row with an address too wide to be recognised raises ValueError |
| RoundTrip.TrimmedLines | src/flockwave/connections/utils/hexdump.py:256-257 | what `strip` and `split` leave of the joined lines |
| RoundTrip.AddressWidth | src/flockwave/connections/utils/hexdump.py:185 | an address has fewer than 32 digits exactly below 16 to the power of 31 |
| RoundTrip.RoundTrip | src/flockwave/connections/utils/hexdump.py:176-276 | the result of restoring a dump for every byte string: the bytes, or which exception |
| RoundTrip.RoundTripDomain | src/flockwave/connections/utils/hexdump.py:256-276 | restoring gives the bytes back if and only if they are not empty, not too many, and do not end in a row of a single blank |
| RoundTrip.RoundTripFile | src/flockwave/connections/utils/hexdump.py:209-276 | the same condition for printing a file and restoring the text |
| RoundTrip.HexdumpInjective | src/flockwave/connections/utils/hexdump.py:164-206 | no two byte strings have the same dump |
| DumpLayout.HexdumpShowsData | src/flockwave/connections/utils/hexdump.py:176-206 | every character of a dump: one line for each 16 bytes begun, with its address in at least eight upper-case digits, the digits of each byte in their columns and blanks between them, and in the gutter each byte itself if it is printable ASCII and a dot otherwise |
| DumpFormats.DehexDump | src/flockwave/connections/utils/hexdump.py:156-173 | `dehex` undoes a blank-separated dump for every even chunk size; for odd sizes exactly when there is one chunk |
| DumpFormats.FromHexWhitespace | src/flockwave/connections/utils/hexdump.py:156-161 | `dehex` skips any ASCII whitespace between pairs of digits |
| DumpFormats.RestoreRawHex | src/flockwave/connections/utils/hexdump.py:262-275 | `restore` undoes a dump without separators from two bytes on, and raises IndexError below |
| DumpFormats.RestoreScapy | src/flockwave/connections/utils/hexdump.py:264-274 | `restore` undoes plain dumps of 16-byte rows unless there is nothing or one byte in the last row |
| DumpFormats.RestoreScapyRow | src/flockwave/connections/utils/hexdump.py:272-273 | a full row without separator restores after its address and with anything behind it |
| DumpFormats.RestoreFarManager | src/flockwave/connections/utils/hexdump.py:270-271 | `restore` undoes Far Manager rows, with a bar after the eighth byte, unless there is nothing or one byte in the last row |
| DumpFormats.RestoreFarManagerRow | src/flockwave/connections/utils/hexdump.py:259-271 | a full Far Manager row restores after its address and with anything behind it |
| DumpFormats.SurroundingsIgnored | src/flockwave/connections/utils/hexdump.py:256 | blanks and blank lines around a dump change nothing |
| DumpFormats.LeadingColon | src/flockwave/connections/utils/hexdump.py:259-264 | a line that begins with a colon is never read: the colon ends no address |
| LogTranscript.FormattedRow | src/flockwave/connections/middleware/log.py:45-46 | a logged row is the printed row from the colon of its address on |
| DumpLayout.LogShowsData | src/flockwave/connections/middleware/log.py:39-65 | every character of the lines logged for a read or a write: the arrow of its direction, two blanks, and the row as in a dump |
| LogTranscript.LoggingMiddleware.Read | src/flockwave/connections/middleware/log.py:127-131 | hands on what was read and logs exactly its lines; a read that raises logs nothing |
| LogTranscript.LoggingMiddleware.Write | src/flockwave/connections/middleware/log.py:133-136 | logs exactly the lines of the payload, then writes it unchanged; a write that raises stays in the log |
| LogTranscript.LoggingMiddleware.Emit | src/flockwave/connections/middleware/log.py:134-135 | every line reaches the writer, in order |
| LogTranscript.LoggingMiddleware.Transcript | src/flockwave/connections/middleware/log.py:127-136 | at any point of any run the log of the object restores to what its wrapped connection delivered and was asked to send, which is what it sent exactly if no write of any bytes raised |
| LogTranscript.SentExactly | src/flockwave/connections/middleware/log.py:133-136 | the bytes of all logged writes are the bytes sent if and only if no write of any bytes raised |
| LogTranscript.RestoreAllRows | src/flockwave/connections/utils/hexdump.py:256-276 | rows without addresses restore to their bytes although gutters may hold colons |
| LogTranscript.WriteTranscript | src/flockwave/connections/middleware/log.py:39-65 | the write lines of any mix of reads and writes restore to all payloads written, unless they are empty or the last row is a single blank |
| LogTranscript.ReadTranscript | src/flockwave/connections/middleware/log.py:39-65 | the same for the read lines |
| Connection.ConnectionBase.constructor | src/flockwave/connections/base.py:235-240 | a new connection is DISCONNECTED |
| Connection.ConnectionBase.SetStateTo | src/flockwave/connections/base.py:247-277 | state, flags and signals after `_set_state` |
| Connection.ConnectionBase.BeginOpen | src/flockwave/connections/base.py:308-316 | where each state sends an `open` call, and that only a body that begins is announced |
| Connection.ConnectionBase.BeginClose | src/flockwave/connections/base.py:286-293 | the same for `close` |
| Connection.ConnectionBase.Continue | src/flockwave/connections/base.py:289-318 | what a call does after its wait, without looking at the state again |
| Connection.ConnectionBase.EndOpen | src/flockwave/connections/base.py:319-327 | the state after `_open` succeeded or not |
| Connection.ConnectionBase.EndClose | src/flockwave/connections/base.py:294-302 | the state after `_close` succeeded or not |
| Connection.TraceStep | src/flockwave/connections/base.py:247-277 | `_set_state` keeps flags in agreement with the state, and signals a chain with each entry signalled once |
| Lifecycle.NoOrphanedTransition | src/flockwave/connections/base.py:247-327 | on every run CONNECTING means somebody is inside `_open`, DISCONNECTING somebody inside `_close`, and without calls the connection is up or down |
| Lifecycle.SignalsTellTheState | src/flockwave/connections/base.py:235-277 | on every run the signals chain from DISCONNECTED to the state, entries are signalled exactly once, flags agree |
| Returns.ReturnsAreEarned | src/flockwave/connections/base.py:279-327 | on every run an `open` call that returned found CONNECTED or saw it entered since it began, by its own body if it found no opening under way, and by another one otherwise; the same for `close` and DISCONNECTED |
| Returns.AtOnceExactly | src/flockwave/connections/base.py:286-312 | an `open` call is over at once if and only if it finds CONNECTED, a `close` call if and only if it finds DISCONNECTED |
| Returns.WaitersMayResume | src/flockwave/connections/base.py:286-316 | on every run a call that found a transition under way may go on once that transition has succeeded |
| Lifecycle.OrderExactly | src/flockwave/connections/base.py:279-327 | bodies never overlap, start in the right state and follow the diagram if and only if no waiter resumes after the state moved on |
| Lifecycle.LifecycleSafety | src/flockwave/connections/base.py:279-335 | with one of each, every run is orderly, with failures and cancellations |
| Lifecycle.TwoClosersOverlap | src/flockwave/connections/base.py:290-293 | two closers woken together both enter `_close` |
| FileConnection.FDConnection.AttachTo | src/flockwave/connections/base.py:446-478 | handle, object, ownership and the signal after `_attach` |
| FileConnection.FDConnection.FinishOpen | src/flockwave/connections/base.py:438-444 | attaches what it got, and fails without touching anything when it got nothing |
| FileConnection.FDConnection.Close | src/flockwave/connections/base.py:433-436 | fails exactly when there is no file object, and detaches otherwise |
| FileConnection.AttachedExactlyWhenUp | src/flockwave/connections/base.py:433-484 | with one of each there is a file object when CONNECTED and none when DISCONNECTED, the assertion never fails, and handle changes chain |
| FileConnection.AttachedToLastSource | src/flockwave/connections/base.py:446-478 | a CONNECTED connection has handle, object and ownership of what its last successful `_open` returned |
| SocketConnection.UDPListenerConnection.constructor | src/flockwave/connections/socket.py:628-631 | a broadcast port allows broadcasts |
| SocketConnection.UDPListenerConnection.LearnPortFrom | src/flockwave/connections/socket.py:692-703 | the port is learned when broadcasts are allowed and none is set |
| SocketConnection.UDPListenerConnection.CompleteOpen | src/flockwave/connections/socket.py:705-714 | the inferred address and the socket after opening |
| SocketConnection.UDPListenerConnection.CloseSocket | src/flockwave/connections/socket.py:723-726 | the inferred address is dropped first, and it fails exactly without a socket |
| SocketConnection.UDPListenerConnection.SetUserDefinedBroadcastAddress | src/flockwave/connections/socket.py:772-786 | refused exactly for an address when broadcasts are disabled |
| SocketConnection.SocketExactlyWhenUp | src/flockwave/connections/socket.py:291-304 | with one of each there is a socket when CONNECTED and none when DISCONNECTED, the assertion never fails, and a closed connection has no broadcast address but the user's |
| SocketConnection.BroadcastsGoTo | src/flockwave/connections/socket.py:692-746 | on every run broadcasts go to the user's address if one is set, and otherwise, while up, to the host of the last opening at the configured or first bound port |
| SocketConnection.BroadcastPortIsKept | src/flockwave/connections/socket.py:692-713 | a broadcast port is never changed once known, over any closing and reopening |
| SocketConnection.BoundPortExactly | src/flockwave/connections/socket.py:692-713 | without a configured port broadcasts go to the port that the socket is bound to if and only if it is the first that any socket of the connection was bound to |
| SocketConnection.ReopenedOnAnotherPort | src/flockwave/connections/socket.py:700-713 | bound to one port, closed and reopened on another, broadcasts still go to the first |
| TaskConnection.TaskConnectionBase.Assign | src/flockwave/connections/base.py:571-582 | refused unless closed; drops scope and event |
| TaskConnection.TaskConnectionBase.StartOpening | src/flockwave/connections/base.py:584-588 | refused without a nursery; makes a new event |
| TaskConnection.TaskConnectionBase.FinishOpening | src/flockwave/connections/base.py:589-591 | keeps the scope that the task reported |
| TaskConnection.TaskConnectionBase.StartClosing | src/flockwave/connections/base.py:593-599 | takes the scope and waits for the event, or finds none and does not wait |
| TaskConnection.TaskConnectionBase.RunFinally | src/flockwave/connections/base.py:611-614 | sets the event that is current then |
| TaskConnection.IdleExactly | src/flockwave/connections/base.py:584-616 | with one of each, no `_run` executes while DISCONNECTED if and only if no `_close` that found no scope returns while there is a closing event that is not set |
| TaskConnection.IdleWhenClosersFinish | src/flockwave/connections/base.py:584-616 | if no closer is cancelled while it waits, no `_run` executes while DISCONNECTED |
| TaskConnection.CancelledCloserLeavesRun | src/flockwave/connections/base.py:593-599 | a cancelled closer makes the next one leave `_run` executing |
| TrioListener.TrioListenerBase.EnterTask | src/flockwave/listeners/base.py:334-335 | the scope and the exit event of a task that begins |
| TrioListener.TrioListenerBase.LeaveTask | src/flockwave/listeners/base.py:347-348 | drops the scope and sets the exit event |
| TrioListener.TrioListenerBase.StartClosing | src/flockwave/listeners/base.py:297-303 | drops the scope and waits for the exit event in any case |
| TrioListener.QuietListener | src/flockwave/listeners/base.py:297-348 | with one of each, and closers cancelled at any point, a CLOSED listener has no task |
| Supervision.TakeTurn | src/flockwave/connections/supervision.py:252-287 | the policy calls, the sleep and the ending of one turn |
| Supervision.Supervise | src/flockwave/connections/supervision.py:249-287 | the loop chains the turns until one of them ends it |
| Supervision.TurnByTurn | src/flockwave/connections/supervision.py:252-285 | each turn calls with "open" exactly if the opening succeeds, then with "close" exactly if besides nothing raises and with an error otherwise, then sleeps for the answer, and does nothing else |
| Supervision.PolicyLanguage | src/flockwave/connections/supervision.py:251-279 | the policy calls of every run are in (open close, open error, error)* |
| Supervision.EveryWordIsARun | src/flockwave/connections/supervision.py:251-279 | every word of that language is what the policy sees in some run |
| Supervision.SuperviseEnds | src/flockwave/connections/supervision.py:281-287 | the loop goes on exactly while answers are delays, and ends as the first other answer says |
| Supervision.AnswersDecide | src/flockwave/connections/supervision.py:281-287 | which answers make the loop go on, stop, raise the policy's exception, raise ValueError or fail in `sleep` |
| Supervision.PolicyErrorExactly | src/flockwave/connections/supervision.py:274-279 | an exception of the policy ends the loop if and only if a close or error call raised it |
| Supervision.InformingErrorIsFedBack | src/flockwave/connections/supervision.py:252-276 | an "open" call that raises is followed by an error call, and the loop goes on |
| Supervision.DocumentedExactly | src/flockwave/connections/supervision.py:228-276 | the loop does what is documented about exceptions of the policy if and only if no "open" call made in it raises |
| Supervision.SuperviseSleeps | src/flockwave/connections/supervision.py:284-285 | it sleeps exactly the numeric answers, in order |
| Supervision.PolicySeesTheConnection | src/flockwave/connections/supervision.py:251-279 | with the supervisor as the only opener every "open" call sees CONNECTED, and without a task every "close" call follows an entry into DISCONNECTED since that "open" |
| Supervision.SameCallsAsTheLoop | src/flockwave/connections/supervision.py:251-279 | next to other tasks the policy sees what it sees in a run of the loop alone whose turns are told by the events, and the "open" call of a turn under way |
| MessageChannel.MemoryChannel.CloseSend | src/flockwave/connections/channel.py:36-38 | waiting senders are cut off, the buffer stays |
| MessageChannel.ChannelConnection.Read | src/flockwave/connections/channel.py:40-41 | takes the oldest chunk |
| MessageChannel.ChannelConnection.Write | src/flockwave/connections/channel.py:43-44 | puts the chunk behind all others |
| MessageChannel.ChannelConnection.Close | src/flockwave/connections/channel.py:36-38 | closes its sending and then its receiving end; cancelled in between it leaves the receiving end as it is |
| MessageChannel.ChannelConnection.CloseSending | src/flockwave/connections/channel.py:37 | the sending end up to the first await |
| MessageChannel.ChannelConnection.CloseReceiving | src/flockwave/connections/channel.py:38 | the receiving end, after whatever others did in between |
| MessageChannel.CreateLoopbackConnectionPair | src/flockwave/connections/factory.py:393-399 | what one connection sends the other receives, both ways, over two queues |
| MessageChannel.MessageChannel.Send | src/flockwave/channels/message.py:100-101 | writes the encoded message |
| MessageChannel.MessageChannel.ReadPending | src/flockwave/channels/message.py:146-156 | reads one chunk, which ends the channel when it is empty and is parsed otherwise |
| MessageChannel.MessageChannel.Receive | src/flockwave/channels/message.py:95-98 | delivers the first message left, reading only as many chunks as it takes; no message exactly when none is left |
| MessageChannel.MessageChannel.Aclose | src/flockwave/channels/message.py:92-93 | closes the connection and leaves what is pending |
| MessageChannel.ReceiveTakesFirst | src/flockwave/channels/message.py:95-98 | one call takes the first message left and leaves the others |
| MessageChannel.ReceiveEnds | src/flockwave/channels/message.py:95-98 | how a call ends that finds no message left |
| MessageChannel.Act | src/flockwave/connections/factory.py:396-399 | a step of either end moves both directions of a pair as the model of a direction says |
| MessageChannel.SentChanges | src/flockwave/connections/channel.py:36-44 | which steps change the record of what was sent: accepted sends add to it, and only senders that still wait are taken off it |
| MessageChannel.SettledStays | src/flockwave/connections/channel.py:36-44 | on every run a message is on record for good once its sender does not wait any more |
| MessageChannel.SendsAreRecorded | src/flockwave/connections/channel.py:43-44 | as long as no sender is cancelled and no end closed, the record is all messages sent, in order |
| MessageChannel.ConservedExactly | src/flockwave/channels/message.py:95-101 | at every step of every run the record of what was sent is what was delivered, then what is pending, then what the queue decodes to (and what the receiver's closing dropped), if and only if encodings are not empty and the parser inverts the encoder |
| MessageChannel.EndMeansEverythingDelivered | src/flockwave/channels/message.py:146-156 | `EndOfChannel` comes only with nothing pending, and with such a codec only after the sender closed and everything on record was delivered |
| MessageChannel.EmptyEncodingEnds | src/flockwave/channels/message.py:153-155 | a message encoded as no data ends the channel for its reader with both ends open |
| MessageChannel.EndsEarlyExactly | src/flockwave/channels/message.py:153-155 | a channel ends for its reader before the sender closes, on some run, if and only if some message is encoded as no data |
| LossyChannel.LossyChannelWrapper.Send | src/flockwave/channels/lossy.py:65-67 | one draw decides whether the message reaches the wrapped channel at all; a lost one looks sent |
| LossyChannel.LossyChannelWrapper.Receive | src/flockwave/channels/lossy.py:69-73 | delivers the first survivor of the messages left in the wrapped channel, one draw for each message taken; without one it ends as a call on the wrapped channel ends |
| LossyChannel.LossyChannelWrapper.TryOne | src/flockwave/channels/lossy.py:71-72 | one turn of the loop: a message that survives exactly if its draw is not below the loss probability |
| LossyChannel.Wrapped.Receive | src/flockwave/channels/lossy.py:71 | a call on what is wrapped, a message channel or any other, takes the first message left |
| LossyChannel.Consumed | src/flockwave/channels/lossy.py:70-73 | a call takes all messages up to the first whose draw is high enough |
| LossyChannel.SurvivorsExactly | src/flockwave/channels/lossy.py:72-73 | the survivors are the messages with a draw not below the loss probability, in order |
| LossyChannel.RunDeliversSurvivors | src/flockwave/channels/lossy.py:69-73 | any number of calls deliver the first survivors without gaps; enough calls take every message and deliver every survivor |
| LossyChannel.LeftOnLine | src/flockwave/channels/message.py:95-98 | over a loopback pair the messages left are those pending and queued |
| Rpc.RpcPeer.PostRequest | src/flockwave/channels/rpc.py:260 | a request queues up behind everything else |
| Rpc.RpcPeer.Register | src/flockwave/channels/rpc.py:257-265 | a future that is not done, and no other future is touched |
| Rpc.RpcPeer.Forget | src/flockwave/channels/rpc.py:265-267 | the outcome, and the future is gone |
| Rpc.RpcPeer.HandleRequest | src/flockwave/channels/rpc.py:154-161 | queues exactly the reply that is due |
| Rpc.RpcPeer.HandleResponse | src/flockwave/channels/rpc.py:163-214 | only a registered future that is not done is set, to what the message says; stale, duplicate and unknown messages change nothing but the log |
| Rpc.CallsGetTheirFirstOutcome | src/flockwave/channels/rpc.py:252-267 | over any interleaving a call gets what the first message says that answers its own identifier while it was registered: the result of a response, its exception, or code and text of an error with their defaults; its future holds that as soon as there is one, and one-way calls never register |
| Rpc.WaitingCallsEnd | src/flockwave/channels/rpc.py:265-267 | a waiting call may go on with an outcome if and only if an answer to it came since it was registered, a call that gives up gets none, and either way its future is gone |
| Rpc.RepliesLeaveInOrder | src/flockwave/channels/rpc.py:154-161 | replies on the wire are a prefix of the truthy results for two-way requests in order of arrival, the rest is on its way, and what was handled are the requests that arrived |
| Rpc.DueExactly | src/flockwave/channels/rpc.py:160-161 | a reply is due for a two-way request with a truthy result and for nothing else, in order |
| SerialStream.ConflictDetector.Enter | src/flockwave/connections/serial.py:53-57 | refused, without a change, exactly when held |
| SerialStream.ThreadedSerialPortStream.StartSending | src/flockwave/connections/serial.py:115-121 | nothing to send returns at once, a held detector refuses, otherwise it is held |
| SerialStream.ThreadedSerialPortStream.ContinueSending | src/flockwave/connections/serial.py:122-127 | what is left after a write of any reported size, and that the detector is released exactly when the call is over |
| SerialStream.NoInterleaving | src/flockwave/connections/serial.py:115-127 | the device's stream is one prefix for each accepted payload in order of acceptance, the whole payload for calls that returned |
| SerialStream.RefusedExactly | src/flockwave/connections/serial.py:115-121 | a call is refused if and only if it has data and an accepted payload is still being sent, and accepted if and only if it has data and there is none |
| SerialStream.EndingsTellTheTruth | src/flockwave/connections/serial.py:115-127 | the calls that ended without an error, those without data left out, are one by one the accepted payloads that were sent out, each on the wire as a whole behind what was accepted before it |
| SerialStream.NormalMeansSent | src/flockwave/connections/serial.py:115-127 | a call that ended without an error had no data, or its whole payload was accepted from it and is on the wire at its place |
| SerialStream.BusyCallChangesNothing | src/flockwave/connections/serial.py:53-60 | a call that meets a held detector writes nothing and does not release it; with data it ends with the error of the detector |

## Left out

- Sockets, serial devices, processes, files, threads, name and interface lookup: operating system calls; their results are arguments or events.
- `hexdump` with `result="print"`, non-bytes arguments and the command line of the dump module.
- URL specifications, the connection registry, RPC proxies, capabilities, read-only and write-only middleware: thin wrappers and map lookups.
- `StreamConnectionBase` and `ProcessConnection`: their `_close` drops the stream even when it then fails, so being attached exactly when up is not their property.
- `EncoderChannel` and `ParserChannel`: the first hands messages on, the second repeats the receive loop of `MessageChannel`.
- `ConnectionSupervisor` with its queue of commands and its policy per connection: depends on the order in which Trio starts tasks.
- Cancellation of `supervise` itself: the statements are about runs that are not cancelled.
- That every call returns in the end: a closer that waits for an opening which fails stays blocked.
- Trio, blinker, tinyrpc and `FutureMap`: taken as a queue, a flag with waiters, a list of signals and a map of futures.
- Errors raised by an RPC handler and the end of the channel: both tear down the whole context.
- `SerialStream.NoInterleaving`: the device is taken to report as many bytes as it took, or more once it took all; closing the stream and receiving are not modelled.
- `LossyChannel.Wrapped`: a channel other than a message channel is known by the messages that it will yield and by whether it accepts what is sent.
- `LossyChannel.RunDeliversSurvivors`: draws are real numbers, and sends that use up draws between two receive calls are covered call by call only.
- `MessageChannel.ConservedExactly`: parsers that keep part of a chunk for later are not covered, and each end has one receiver.
- `SocketConnection.SocketExactlyWhenUp`: multicast subscriptions and the choice of interface are not modelled.
- `Supervision.Supervise`: takes a finite number of turns, since the loop has no end of its own.
