# libipc: the event loop, the switches and the wire formats

libipc lets local services exchange messages over UNIX sockets. A *context* keeps
two parallel arrays (connections and `poll` records), a queue of messages to send
and a table of *switched* descriptors, each of which forwards whatever it receives
to its partner. There are two implementations, one in Zig and one in C, with
different representations and different wire formats, and a daemon, ipcd, that
routes lookups to other services. This project models the three and proves what
they keep.

## How the model is laid out

| files | what they hold |
|---|---|
| `Wrappers`, `Bytes`, `SendQueue`, `SlotMap` | shared pieces: big-endian integers, the queue and its purge, two parallel arrays seen as one map |
| `SwitchTable` | the switch table as a map of descriptors |
| `ZigTypes`, `ZigWire`, `ZigSwitch`, `ZigState` | the Zig wire format, the switch database, and what each operation of a context does to its state, as functions |
| `ZigContext` | the Zig context as a class; every method is proved to do what the function of `ZigState` does |
| `ZigInvariant`, `ZigNet`, `ZigWait`, `ZigLog`, `ZigRuns`, `ZigEdges` | what each action keeps; the context seen as a map and a bag; what an event says about the change; what happens to messages; whole runs and the obligations they need; the edges |
| `CSwitch`, `CWire`, `CState`, `CContext`, `CInvariant`, `CNet`, `CRuns`, `CReplies`, `CEdges`, `CTimer` | the C implementation: pair list, codec, context, queue and scans, the context seen from outside, whole runs, what a wait requests and reports, the edges, timer |
| `Text`, `Routing`, `Ipcd`, `IpcdLoop` | splitting and URIs, the lookup string, serving a lookup, the daemon's loop |

The operating system is a parameter of each wait: the answer of `poll` (restricted
by POSIX.1-2017 to the requested events plus POLLHUP, POLLERR and POLLNVAL), the
packet a read delivers, whether a write succeeds, and the descriptor `accept`
returns. A read delivers one packet, cut to the size of the receiving buffer.
`fcntl` and `close` act on a set of open descriptors. A state function answers
`Crash` where the program would stop or be undefined: unwrapping null, using the
index that was left `undefined`, closing a descriptor that is not open. No function
requires these away; that they do not happen is what is proved.

## What is proved

* **Every run of a Zig context is safe.** From an empty context, over any sequence
  of scheduling, connecting, pairing, closing and waiting, for any answers POSIX
  allows: at no step a crash or `incoherentSwitchError`, and everything ever queued
  is still queued, was handed once to a write on its own descriptor with its own
  frame, or was dropped in a step that closed that descriptor
  (`ZigRuns.EveryRunIsSafe`). The obligations this leaves to callers are exact: new
  descriptors are not tracked yet, tracked descriptors are closed through the
  context, and `nuke` is not used on the entries of tracked switched descriptors. An
  action meets them if and only if no legal continuation crashes
  (`ZigRuns.LegalIsExact`), and the same is shown for the answers of the operating
  system (`ZigRuns.AnswerableIsExact`).
* **An event explains the whole change.** The first entry that reports something
  decides a `wait_event`; the event names its slot, and with the descriptor found
  there, the type of its connection and the answers of the system, exactly one change
  of tracked descriptors, queue, table and open descriptors is possible.
* **A pair dies together**, and nothing else changes, despite the first close moving
  the entry the second one looks up. The table stays symmetric exactly when
  `add_switch` does not take the partner of a third descriptor.
* **The C pair list and the Zig map are the same table**: equal answers to every
  guarded sequence of operations, and the guard is exact.
* **The C scans without an upper bound stay inside the queue**, from any state, and
  the purge with a wrapping index removes all and only the messages of a descriptor.
  What a C wait reports follows from what poll, accept, read and write answer, for
  every type of connection, and determines which entries, pairs, messages and open
  descriptors leave, from any state, even one with two entries for a descriptor.
  Over every run, the arrays represent one map as long as, and only as long as,
  nothing joins that is tracked already, and every message is still queued, was given
  to one write, or was dropped with its descriptor.
* **Every run of ipcd**: whether it is still serving after any sequence of turns is
  decided by an exact list of conditions, and however it leaves its loop, every
  descriptor it has opened or accepted is closed.
* **Codecs**: the exact sizes for which each format delivers a message faithfully.
* **Timer, URI, lookup string, descriptors of ipcd**: exact conditions for each.

## Where the code and what is said about it differ

The model follows the code.

* A POLLERR alone is never seen: `zig-impl/src/context.zig:499` tests POLLHUP again
  under a comment that announces POLLERR (`ZigWait.LonePollErrIsAnonymous`).
* After a disconnection found by a read, the event is built once the array entry is
  gone, so it names the last descriptor of the arrays, whichever was closed
  (`ZigEdges.DisconnectionOrigin`).
* An error or a disconnection of a switched descriptor is the one event that does not
  tell what has changed: the pair may be gone, or not (`ZigEdges.EventTellsExactly`).
* POLLHUP on a switched descriptor closes one end and leaves the table entry, while
  the header of `zig-impl/src/switch.zig` says both ends are closed
  (`ZigEdges.HangUpLeavesTheOtherEnd`, and `ZigEdges.PairGoesExactly` for when they
  are). Once the number is in use again, the surviving end forwards to a connection
  that was never paired (`ZigEdges.StrangerReceives`).
* The same header says that `nuke` may be used at any point and removes both
  connections. It removes table entries only, and while an end is still tracked as
  switched, the next read on it unwraps null (`ZigRuns.LegalIsExact`).
* A failed switched read in C deletes the second descriptor of the pair and the one
  that was read, which are both ends only if the first was read. Otherwise the first
  stays, switched and unpaired: no wait removes it, and no wait that would read from
  it or write to it moves a message (`CEdges.FailedReadIsOneSided`,
  `CEdges.SecondEndMakesOrphan`, `CEdges.OrphanStays`, `CEdges.OrphanMovesNothing`).
* A C context can hold two entries for one descriptor by waiting alone: two failed
  accepts leave two entries for -1 (`CEdges.TwoFailedAccepts`), and a hang-up closes a
  descriptor but keeps its entry, so that accept may hand its number out again
  (`CEdges.HangUpThenAccept`). The results that speak of a map hold until then
  (`CRuns.DistinctRuns`).
* `ipc_write_fd` and `default_cb_out` encode into a buffer of IPC_MAX_MESSAGE_SIZE
  bytes, which the six largest accepted payload lengths overrun, and ignore the
  refusal of longer ones, for which they send zero bytes: nothing is transmitted and
  the message is lost (`CWire.SendExact`).
* ipcd means to connect directly when a destination has no scheme, but `URI.read`
  unwraps null on exactly these strings: that branch is dead, and such a lookup stops
  the program (`Text.ReadUriPanics`, `Text.ProtocolIsProper`, `Ipcd.BareHostStops`).
* ipcd leaves its loop on errors that concern one client only: a packet whose length is
  refused is an error of `wait_event`, which the loop passes on, and so is a lookup of a
  service that is not there (`IpcdLoop.TurnExact`).
* In C, a timer of -1 becomes 0 after one wait, and a wait so long that its
  milliseconds wrap does not shorten a timer (`CTimer.TimerShrinks`).

## Model

| member | source | states |
|---|---|---|
| ZigWire.DeliveryExact | zig-impl/src/context.zig:259-325 | for every payload, what a peer reads after a write: nothing, a refusal, or the payload cut to its length modulo 2^32 |
| ZigWire.DeliveryFaithful | zig-impl/src/context.zig:299-325 | the same payload comes back exactly for 1 to 99992 bytes |
| ZigWire.AcceptedPackets | zig-impl/src/message.zig:31-43 | which packets are accepted (never a length above 99992), which count as no message, and that missing bytes are read as zeros |
| ZigWire.FrameBytes | zig-impl/src/message.zig:31-48 | a frame byte by byte: four bytes of length, the most significant first, then the payload; the buffer sizes as numbers |
| ZigWire.ForwardingTransparent | zig-impl/src/switch.zig:75-137 | a forwarded packet is written as its own frame prefix; one whose length does not fit is refused |
| ZigWire.FixedBufferStream.WriteMessage | zig-impl/src/message.zig:45-48 | the longest prefix of the frame that fits is appended, and which shortages are reported |
| ZigWire.LayOut | zig-impl/src/context.zig:259-272 | a context never fails to lay a message out; it keeps the first 99996 bytes of the frame |
| ZigWire.LayOutSwitched | zig-impl/src/switch.zig:108-120 | the same for a switched write and its 100000-byte buffer |
| SendQueue.PurgeExact | zig-impl/src/context.zig:529-542 | the purge removes all and only the messages of one descriptor, as a multiset, in spite of swap-removals at the cursor |
| SwitchTable.PutSymmetric | zig-impl/src/switch.zig:60-63 | adding a pair keeps the table symmetric if and only if no third descriptor loses its partner |
| SwitchTable.NukePair | zig-impl/src/switch.zig:175-180 | removing a pair removes both ends and nothing else |
| ZigSwitch.SwitchDB.AddSwitch | zig-impl/src/switch.zig:60-63 | both directions are stored, and a symmetric table stays one if and only if no third descriptor loses its partner |
| ZigSwitch.SwitchDB.GetDest | zig-impl/src/switch.zig:170-173 | null exactly for descriptors without an entry; in a symmetric table, the descriptor whose own entry leads back |
| ZigSwitch.SwitchDB.Nuke | zig-impl/src/switch.zig:175-180 | the entry and the entry it points to are removed; a symmetric table stays one |
| ZigSwitch.CallbackEvents | zig-impl/src/switch.zig:75-168 | which event follows from each answer a callback can give, for reads and for writes |
| ZigSwitch.SwitchDB.OnRead | zig-impl/src/switch.zig:139-152 | the event of a switched read with the default callback: a switched message for the partner if and only if a whole frame has been received, a disconnection if and only if less than a header has, an error otherwise |
| ZigSwitch.SwitchDB.OnWrite | zig-impl/src/switch.zig:154-168 | the event of a switched write, and the bytes given to the callback |
| ZigContext.Context.constructor | zig-impl/src/context.zig:50-68 | an empty context |
| ZigContext.Context.Add | zig-impl/src/context.zig:163-171 | one entry in each array, listening for input |
| ZigContext.Context.AddNew | zig-impl/src/context.zig:92-99 | a new descriptor is open and tracked |
| ZigContext.Context.AddExternal | zig-impl/src/context.zig:209-215 | the descriptor is tracked as external |
| ZigContext.Context.FdToIndex | zig-impl/src/context.zig:173-182 | the first index of a descriptor, or none |
| ZigContext.Context.Schedule | zig-impl/src/context.zig:274-276 | the message joins the queue |
| ZigContext.Context.AddSwitch | zig-impl/src/context.zig:283-291 | both connections become switched and the table gets the pair, or nothing changes |
| ZigContext.Context.Read | zig-impl/src/context.zig:299-325 | message, no message, or which error; the state does not change |
| ZigContext.Context.SafeCloseFd | zig-impl/src/context.zig:327-337 | closes only what is open and tracked |
| ZigContext.Context.Close | zig-impl/src/context.zig:513-543 | entry, open descriptor and queued messages removed, out-of-range index reported; the loop ends |
| ZigContext.Context.CloseFd | zig-impl/src/context.zig:508-511 | close through the descriptor |
| ZigContext.Context.CloseAll | zig-impl/src/context.zig:545-547 | closes entry 0 until none is left; the loop ends |
| ZigContext.Context.ArmAll | zig-impl/src/context.zig:347-359 | POLLIN everywhere, POLLOUT added where a message waits |
| ZigContext.Context.WaitEvent | zig-impl/src/context.zig:339-506 | one wait: arming, answer of poll, the handler of the first entry that reports something |
| ZigContext.Context.AcceptNewClient | zig-impl/src/context.zig:217-236 | the new client is the last entry and the event says so |
| ZigContext.Context.OnReadable | zig-impl/src/context.zig:390-447 | the POLLIN branch by connection type |
| ZigContext.Context.OnSwitchedReadable | zig-impl/src/context.zig:397-424 | forwards, or removes the pair |
| ZigContext.Context.OnWritable | zig-impl/src/context.zig:449-490 | the first message of the descriptor leaves the queue and is written |
| ZigContext.Context.OnSwitchedWritable | zig-impl/src/context.zig:463-483 | the switched write, removing the pair on error |
| ZigContext.Context.DropPair | zig-impl/src/context.zig:404-417 | partner looked up, table entry removed, both ends closed |
| ZigContext.Context.CloseDisconnected | zig-impl/src/context.zig:431-446 | closes the entry, then names the descriptor found in its slot |
| ZigInvariant.StepKeeps | zig-impl/src/context.zig:259-547 | one legal action from a good state neither crashes nor breaks the invariant, and is never an incoherent switch |
| ZigRuns.EveryRunIsSafe | zig-impl/src/context.zig:339-547 | over all runs: at each step no crash, no incoherent switch and no message dropped but for a descriptor closed in that step; at the end messages conserved as multisets, each write on the message's own descriptor with its own frame, POLLOUT armed only with a message queued, switched descriptors in the table |
| ZigRuns.LegalIsExact | zig-impl/src/context.zig:163-215 | the obligations left to callers are necessary and sufficient: an action ignores them if and only if some legal continuation crashes |
| ZigRuns.AnswerableIsExact | zig-impl/src/context.zig:387-505 | what a wait needs of accept and poll: it and all that may legally follow never crash if and only if the deciding entry accepts an untracked descriptor and reports POLLOUT only with a message waiting |
| ZigInvariant.CloseAllKeeps | zig-impl/src/context.zig:545-547 | close_all never fails, leaves no entry, closes exactly the tracked descriptors and takes exactly their messages |
| ZigInvariant.StepSymmetric | zig-impl/src/context.zig:283-291 | each action keeps the table symmetric if and only if it is not an add_switch that takes a third descriptor's partner |
| ZigInvariant.EveryPoliteRunIsPaired | zig-impl/src/switch.zig:38-63 | over all runs without such an add_switch the table is a symmetric pairing |
| SlotMap.AppendIsInsertion | zig-impl/src/context.zig:163-171 | appending to both arrays is insertion in the map they represent |
| SlotMap.SwapRemoveIsRemoval | zig-impl/src/context.zig:519-526 | swap-removal at a shared index is removal from the map, whatever moves |
| ZigNet.TrackRefines | zig-impl/src/context.zig:163-171 | tracking a descriptor adds one entry to the outside view |
| ZigNet.RemovedRefines | zig-impl/src/context.zig:513-543 | closing removes one descriptor from map, open set and queue, and nothing else |
| ZigNet.TeardownRefines | zig-impl/src/context.zig:404-417 | the tracked ends of a pair, and only they, are closed |
| ZigNet.PairDiesTogether | zig-impl/src/context.zig:470-476 | neither end is left in map, open set, table or queue; every other connection, pair and message is unchanged |
| ZigNet.AddSwitchRefines | zig-impl/src/context.zig:283-291 | add_switch succeeds if and only if both descriptors are tracked; then both connections are switched and each forwards to the other, and nothing else changes |
| ZigNet.Refusals | zig-impl/src/context.zig:299-325 | which calls of close, close_fd and read are refused, with which error, and that nothing changes |
| ZigWait.DispatchFirst | zig-impl/src/context.zig:387-505 | the first entry with POLLIN, POLLOUT, POLLHUP or POLLNVAL decides the call |
| ZigWait.LonePollErrIsAnonymous | zig-impl/src/context.zig:498-505 | a lone POLLERR gives an error of index 0 and origin 0 and closes nothing |
| ZigWait.AnonymousExactly | zig-impl/src/context.zig:376-505 | a wait reports the error of index 0 and origin 0 and changes nothing if and only if no entry reports anything but POLLERR and it is no plain timeout (or slot 0 holds descriptor 0 and reports POLLNVAL) |
| ZigWait.ArmRefines | zig-impl/src/context.zig:347-359 | after arming, POLLOUT is requested for exactly the descriptors armed before or with a waiting message |
| ZigWait.AcceptExplained | zig-impl/src/context.zig:217-236 | a connection adds exactly the new client, at the index the event gives |
| ZigWait.HandleWriteExplained | zig-impl/src/context.zig:449-490 | the index is always assigned; the first message of the ready descriptor, and no other, leaves the queue |
| ZigWait.WaitExplained | zig-impl/src/context.zig:339-506 | the first handled entry decides; its event carries that slot and, with its descriptor, type and the system's answers, determines the whole change of tracked descriptors, queue, table and open descriptors; an error changes nothing but the message of a failed write |
| ZigLog.WaitLogs | zig-impl/src/context.zig:387-505 | a wait hands over at most one message, which was waiting, and queues exactly the one it reports |
| ZigLog.StepLogs | zig-impl/src/context.zig:513-547 | messages are dropped only for descriptors closed by the same action |
| ZigEdges.ForwardedOrTornDown | zig-impl/src/switch.zig:296-310 | a switched read queues exactly the decoded packet for the partner, or removes the pair and queues nothing |
| ZigEdges.ForwardedBytes | zig-impl/src/switch.zig:312-320 | a forwarded message is written on a switched connection as the whole received frame, on any other as its first 99996 bytes, which is all of it exactly up to 99992 bytes of payload |
| ZigEdges.Relayed | zig-impl/src/context.zig:397-490 | over two waits, what one descriptor receives is what is written to the descriptor in its table entry |
| ZigEdges.AddSwitchForwards | zig-impl/src/context.zig:283-291 | from every good state, once add_switch has been called a packet received at either end is written whole to the other |
| ZigEdges.EndToEnd | zig-impl/src/context.zig:299-325 | one context reports the payload another has written if and only if it is 1 to 99992 bytes long; an empty one costs the connection |
| ZigEdges.ExternalIsReported | zig-impl/src/context.zig:209-215 | what arrives on a descriptor given to add_external is reported as such, and nothing changes |
| ZigEdges.DisconnectionOrigin | zig-impl/src/context.zig:431-446 | a wait that reads a disconnection names the last descriptor of the arrays, which is the closed one if and only if its entry was the last |
| ZigEdges.EventTells | zig-impl/src/context.zig:339-506 | without the system's answers, the event alone tells the whole change, but for errors and disconnections of switched descriptors |
| ZigEdges.EventTellsExactly | zig-impl/src/context.zig:397-505 | for those, two possible waits with the same event leave different contexts |
| ZigEdges.PairGoesExactly | zig-impl/src/context.zig:397-497 | a wait removes the pair of its deciding entry if and only if a read finds no usable packet or else a write fails |
| ZigEdges.HangUpLeavesTheOtherEnd | zig-impl/src/context.zig:491-497 | a wait decided by POLLHUP alone closes one end and leaves the other paired with an untracked descriptor |
| ZigEdges.StrangerReceives | zig-impl/src/context.zig:491-497 | from there, a legal run writes what the surviving end receives to a connection that was never paired |
| ZigEdges.TrackedTwiceIsUndefined | zig-impl/src/context.zig:209-215 | from every good state, tracking a descriptor again has a legal continuation in which the write branch uses the undefined index |
| ZigEdges.ClosedOutsideUnwrapsNull | zig-impl/src/context.zig:411-417 | from every good state with a pair, closing one end outside the context has a legal continuation in which getDest unwraps null |
| CSwitch.Switchings.Add | src/network.c:89-113 | the pair is appended |
| CSwitch.Switchings.Del | src/network.c:120-149 | the first pair with the descriptor is replaced by the last; the other end, or -1, is returned |
| CSwitch.Switchings.Get | src/network.c:173-184 | the other end, or -1 |
| CSwitch.Switchings.GetSide | src/network.c:156-171 | which side of which pair |
| CSwitch.AddRefines | src/network.c:89-113 | adding unpaired descriptors keeps list and map in step |
| CSwitch.DelRefines | src/network.c:120-149 | deleting keeps list and map in step, in spite of the swap |
| CSwitch.SameAnswers | src/network.c:120-184 | every guarded sequence of additions, look-ups and deletions gets the same answers from list and map |
| CSwitch.SameAnswersFromEmpty | src/network.c:89-184 | ... in particular from two empty tables |
| CSwitch.GuardIsExact | src/network.c:89-113 | after an addition the two agree for ever if and only if both descriptors were unpaired |
| CWire.RoundTrip | src/message.c:31-96 | decoding an encoding gives the message back if and only if the payload is at most IPC_MAX_MESSAGE_SIZE - 6; above, it is refused |
| CWire.FrameBytes | src/message.c:67-96 | a frame byte by byte: type, four bytes of length, the most significant first, user type, payload; the limit as a number |
| CWire.DecodeExact | src/message.c:31-65 | which buffers are accepted, and which bytes become type, user type and payload |
| CWire.Reencode | src/message.c:31-65 | an accepted buffer re-encodes to itself unless its length field is zero and it is not six bytes long |
| CWire.RawSerialize | src/message.c:14-29 | the bytes of format_write, the rest of the buffer untouched |
| CWire.FormatWrite | src/message.c:67-96 | the encoding, in the given or a new buffer, a refusal that writes nothing, or an overrun of the given buffer, and exactly when |
| CWire.WriteFd | src/communication.c:307-323 | what is passed to send, and when the local buffer is overrun first |
| CWire.SendExact | src/network.c:232-252 | what is sent is read back as the message if and only if the payload is at most IPC_MAX_MESSAGE_SIZE - 6; the six lengths above overrun the buffer, longer ones send an empty packet |
| CWire.Record.FormatRead | src/message.c:31-65 | the decoding; a refusal leaves the payload alone |
| CTimer.WideElapsedClose | src/communication.c:591-593 | the two truncations never lose or invent a whole millisecond and never give a negative duration |
| CTimer.WideElapsedExact | src/communication.c:591-593 | the elapsed milliseconds are rounded up if the microseconds have wrapped round and down otherwise |
| CTimer.ElapsedClose | src/communication.c:591-593 | the charge is right to the millisecond if and only if it fits an int |
| CTimer.TimerShrinks | src/communication.c:595-601 | the timer shrinks and stays non-negative if and only if neither it nor the charge is negative |
| CTimer.ChargeExact | src/communication.c:595-601 | a timer becomes 0 if and only if the charge reaches it, and otherwise loses just the charge |
| CTimer.DriftBound | src/communication.c:566-601 | over k waits before expiry, of any length, the charges differ from real time by less than k ms if and only if the milliseconds of all waits do not take the timer below the smallest int |
| CTimer.TimerRunsOut | src/communication.c:566-601 | over waits that each fit an int the timer is 0 if and only if their milliseconds have reached it, and otherwise has lost just them |
| CContext.Context.constructor | src/ipc.h:277-298 | an empty context |
| CContext.Context.NewAlloc | src/context.c:9-31 | one zeroed entry more in both arrays |
| CContext.Context.AddEntry | src/communication.c:344-359 | the given entry is the last one |
| CContext.Context.MessagesDel | src/message.c:180-198 | the last message takes the place of the deleted one |
| CContext.Context.RemoveMessagesForFd | src/communication.c:214-229 | the loop with a wrapping index ends, stays in bounds and purges the descriptor |
| CContext.Context.DelIndex | src/communication.c:361-395 | the entry and its messages are removed; the last entry leaves the empty context |
| CContext.Context.FreeAll | src/context.c:33-48 | everything is freed, but the message count is not reset |
| CContext.Context.DelDescriptor | src/communication.c:424-436 | deletion through the descriptor |
| CContext.Context.QueueMessage | src/communication.c:325-339 | queued if and only if its descriptor is tracked |
| CContext.Context.ArmAll | src/communication.c:545-564 | the requested events are rebuilt from the queue |
| CContext.Context.ScanQueue | src/communication.c:443-458 | where the scan stops, including past the end |
| CContext.Context.AcceptAdd | src/communication.c:264-284 | the new client is open and the last entry; after a failed accept that entry stays, with descriptor -1 |
| CContext.Context.CloseIndex | src/communication.c:231-261 | the messages of the entry go and its descriptor is closed unless it is external; the entry stays |
| CContext.Context.CloseAll | src/communication.c:202-211 | the same for every entry |
| CContext.Context.Disconnect | src/communication.c:472-510 | closed, then deleted: the second purge finds nothing |
| CContext.Context.OnReadable | src/communication.c:464-517 | message, disconnection or error by connection type |
| CContext.Context.OnSwitchedReadable | src/network.c:284-378 | forwards to the other end, or deletes the second descriptor of the pair and the one read |
| CContext.Context.OnWritable | src/communication.c:644-656 | plain and switched writes, with the removal of the pair on error |
| CContext.Context.RemovePair | src/network.c:446-453 | the pair leaves the table, both ends are closed and leave the context |
| CContext.Context.WaitEvent | src/communication.c:532-680 | arming, timer, and the handler of the first ready descriptor |
| CInvariant.ScansStayInside | src/communication.c:438-462 | from any state no scan leaves the queue; a reported transmission has removed the first message of that descriptor, a hang-up all of them, a forwarding read has queued one for a tracked partner, descriptors that leave take all and only their messages (if whatever was queued was for a tracked descriptor), and otherwise the queue is untouched |
| CInvariant.LastDelEmptiesQueue | src/communication.c:372-380 | freeing an emptied context never meets a queued message |
| CInvariant.EveryRunKeepsQueueTracked | src/communication.c:325-395 | over all runs whatever is queued is for a tracked descriptor |
| CInvariant.CloseAllEmptiesQueue | src/communication.c:202-211 | after ipc_close_all nothing is queued, every entry is still there, and exactly the descriptors without an entry other than an external one are still open |
| CNet.AddRefines | src/communication.c:344-359 | ipc_add is insertion in the map the arrays represent |
| CNet.DelRefines | src/communication.c:361-395 | ipc_del removes one entry of one descriptor and all its messages; where descriptors are distinct, removal from the map |
| CNet.PairDiesTogether | src/network.c:446-453 | after a failed switched write each end has lost an entry, its messages and its descriptor, and their pair is gone; everything else stays |
| CNet.WaitRefines | src/communication.c:532-680 | from any state, what a wait does to entries, pairs and open descriptors: one joins at the end, or exactly those named by what it reports leave, or none |
| CNet.WaitOnMap | src/communication.c:532-680 | where descriptors are distinct, the same on the map of connections |
| CRuns.StepDistinct | src/communication.c:264-359 | each action keeps descriptors distinct if and only if the one that joins, if any, is not tracked yet |
| CRuns.DistinctRuns | src/communication.c:264-680 | over every run the arrays represent one map throughout if and only if they do at first and nothing joins that is tracked already |
| CRuns.StepConserves | src/communication.c:325-462 | no action loses a message but by closing or deleting its descriptor |
| CRuns.EveryRunConserves | src/communication.c:202-680 | over every run each copy of a message is still queued, was given to one write on its own descriptor, or was dropped with it |
| CReplies.ArmRefines | src/communication.c:545-564 | before poll every entry is listened to, and POLLOUT is requested for exactly those with a message waiting |
| CReplies.WriteRefines | src/communication.c:325-339 | a message is queued if and only if its descriptor is tracked, and POLLOUT is then requested for all its entries and no other |
| CReplies.ReadReplies | src/communication.c:464-517 | what a wait decided by something to read reports, from the type of the connection and the answers of accept and read |
| CReplies.WriteReplies | src/communication.c:644-656 | what a wait decided by POLLOUT reports, from the type, the pairs, the queue and the answer of write |
| CReplies.OtherReplies | src/communication.c:659-680 | a hang-up is reported as such, any other answer as an error of the descriptor |
| CReplies.IdleReplies | src/communication.c:577-608 | a timeout if and only if poll reports nothing, nothing is left to read and the timer was not zero |
| CReplies.ReadClearsMore | src/communication.c:619-642 | reading an entry clears what was known to be left to read there; what stays and what joins, exactly |
| CReplies.WaitingMessageIsSent | src/communication.c:438-462 | from every quiet state a waiting message makes POLLOUT possible, and the wait that reports it gives the first such message to a write |
| CEdges.TwoFailedAccepts | src/communication.c:270-276 | from every state with a server, two failed accepts leave two entries for -1 |
| CEdges.HangUpThenAccept | src/communication.c:659-663 | a closed number that still has an entry may be accepted again |
| CEdges.FailedReadIsOneSided | src/network.c:360-378 | a failed switched read removes an entry of both ends if and only if the first of the pair was read; otherwise the first stays, switched and unpaired |
| CEdges.SecondEndMakesOrphan | src/network.c:360-378 | from every state with both ends switched, the end of connection of the second is such a read |
| CEdges.OrphanStays | src/communication.c:532-680 | over all sequences of waits such an end stays tracked, switched and unpaired |
| CEdges.OrphanMovesNothing | src/network.c:284-303 | a wait that would read from it or write to it reports an error and leaves the queue as it was |
| Text.CutJoin | zig-impl/src/util.zig:17-38 | a cut undoes a join if and only if the left part lacks the delimiter: no occurrence straddles the join |
| Text.ReadUriPanics | zig-impl/src/util.zig:17-22 | the program stops on exactly the strings without "://" |
| Text.ProtocolIsProper | zig-impl/apps/ipcd.zig:147-152 | the test for a destination without a scheme never succeeds |
| Text.UriRoundTrip | zig-impl/src/util.zig:17-31 | splitting undoes printing if and only if no part contains the delimiter that ends it |
| Text.UriWithoutPath | zig-impl/src/util.zig:17-31 | what follows the scheme is all address if and only if it has no slash |
| Text.UriIgnoresSecondScheme | zig-impl/src/util.zig:17-31 | what follows a second "://" is ignored |
| Text.SplitJoin | zig-impl/apps/ipcd.zig:117-128 | joining undoes splitting, and no piece contains the delimiter |
| Text.SplitIterator.Next | zig-impl/apps/ipcd.zig:117-128 | the pieces of the split, one by one |
| Routing.FindDestination | zig-impl/apps/ipcd.zig:117-138 | the two-level loop computes the destination of the specification |
| Routing.ParseExact | zig-impl/apps/ipcd.zig:124-126 | an entry is the text before the first space and the text before the second; without a space there is none |
| Routing.RouteExact | zig-impl/apps/ipcd.zig:122-138 | for any parts, well formed or not, the last one that names the service decides |
| Routing.LookupRoundTrip | zig-impl/src/context.zig:113-130 | the target found is that of the last entry named after the service, or none |
| Ipcd.ServeLookup | zig-impl/apps/ipcd.zig:110-207 | the daemon's branch, defers in order |
| Ipcd.ServeConserves | zig-impl/apps/ipcd.zig:110-207 | on success and error alike the tracked and open descriptors are the earlier ones minus the requester; it stops the program if and only if the destination has no scheme |
| Ipcd.FatalLookups | zig-impl/apps/ipcd.zig:117-152 | a well-formed lookup stops the program if and only if the last entry named after the service has a target without "://" |
| Ipcd.BareHostStops | zig-impl/apps/ipcd.zig:145-152 | a lookup with a bare host stops the program in every state |
| Ipcd.ErrorExitLeavesNothing | zig-impl/apps/ipcd.zig:36-37 | after an error and deinit no entry is left, and exactly the untracked descriptors and the messages for them remain of what was open and queued |
| Ipcd.HandedDescriptor | zig-impl/apps/ipcd.zig:145-193 | which connection the requester receives, and that a daemon's is handed over only after "ok" |
| Ipcd.UnixLookupHandsOver | zig-impl/apps/ipcd.zig:110-162 | the lookup of a "unix://" service hands over a connection to the very service named, or fails to connect |
| Ipcd.RemoteLookupRelays | zig-impl/apps/ipcd.zig:163-193 | the lookup of another protocol hands over the connection to its daemon, only after "ok" |
| IpcdLoop.TurnKeeps | zig-impl/apps/ipcd.zig:75-214 | each turn leaves nothing queued or switched and exactly the tracked descriptors open |
| IpcdLoop.ServeFailsExactly | zig-impl/apps/ipcd.zig:140-193 | serving a lookup ends with an error if and only if the service is not there, the daemon is not written to, or its answer cannot be read |
| IpcdLoop.TurnExact | zig-impl/apps/ipcd.zig:75-214 | a turn leaves the loop, or stops the program, if and only if one of the listed answers is given |
| IpcdLoop.EventsLeave | zig-impl/apps/ipcd.zig:77-214 | which events of a wait leave the loop, in any state |
| IpcdLoop.EmptyRequest | zig-impl/apps/ipcd.zig:195-206 | a request without a message fails if and only if it cannot be answered |
| IpcdLoop.EveryDaemonRun | zig-impl/apps/ipcd.zig:36-218 | over every run the daemon is still serving if and only if no turn has met those conditions, and deinit closes every descriptor it has had |
| IpcdLoop.StartsServing | zig-impl/apps/ipcd.zig:36-40 | the run starts in such a state |
| IpcdLoop.TakeTurn | zig-impl/apps/ipcd.zig:76-214 | one turn of the loop |
| IpcdLoop.CreateService | zig-impl/apps/ipcd.zig:31-218 | the loop and the final deinit, as the specification of the run |

## Left out

- Sockets, `poll`, `fcntl`, `accept`, `sendmsg`, environment variables, signals, logging, clocks and allocation failure are parameters or absent; so is the removal of a server's socket file.
- Packets split or merged by the kernel, and the reassembly in `src/usocket.c`: a read delivers one packet.
- `set_callbacks`: it edits a copy, so only the default callbacks run inside a context; in C the pairs have no callback fields, because deletion does not move them.
- The payload of queued C messages, which is copied with `strncpy`: they are known by descriptor and identity.
- A C message whose payload pointer is NULL although its length is not zero.
- Undefined overflow of C `int` arithmetic on milliseconds and timer is modelled as wrap-around.
- `realloc`ed C arrays are sequences that change length; reading past their end is an outcome of the scan, not a memory model.
- The 10000-byte limit on the lookup a client builds, and the contact with ipcd on the client's side beyond that string.
- The process exit in `send_fd` when only part of the text is sent.
- Order of delivery: the queue is not a FIFO, and the model claims none. Progress: it depends on the peers.
- CContext.Context.QueueMessage: requires fewer than 2^32 queued messages, the range of the index parameter of `ipc_messages_del`.
- CContext.Context.NewAlloc: requires fewer than 2^32 entries, the range of the index parameter of `ipc_del`.
- CContext.Context.AcceptAdd: requires fewer than 2^32 entries, for the same reason.
- CContext.Context.WaitEvent: requires fewer than 2^32 entries and queued messages, for the same reason.
- CContext.Context.OnReadable: requires fewer than 2^32 entries and queued messages, for the same reason.
- CContext.Context.OnSwitchedReadable: requires fewer than 2^32 queued messages, for the same reason.
- CContext.Context.CloseIndex: does not model the socket file and path of a server, nor the answer of close(2), which changes nothing of the context.
- CContext.Context.CloseAll: leaves out the same.
- IpcdLoop.CreateService: the quit signal is the end of the sequence of turns; printing is left out.
- CWire.FormatWrite: does not say what an overrun leaves in the buffer, because nothing defines it.
- What ipcd writes: the destination it sends to a daemon, and its answer to a request without a message.
- File-descriptor passing, hexdumps, file-system helpers, error strings, bindings, example programs and the Crystal application.
