# Marko message layer: models and proofs

Marko sends messages between processes over UDP: `Request`/`Reply` and `Publisher`/`Subscriber` in C++ and in Python, an
`Ascii` transport, and an address filter built on regular expressions. This project models that layer in Dafny 4.11 and
proves what it guarantees over a datagram service that, as RFC 768 says of UDP, promises neither delivery nor
protection from duplicates. `dafny verify dfyconfig.toml` checks everything.

## How the system is modelled

- **Datagrams** (`Datagrams`). A datagram is in flight until the network delivers, loses or copies it, any one at any
  time; a delivered one waits in arrival order. `Frame` is what a receive into a fixed, zeroed buffer makes of it.
- **The request/reply protocol** (`RpcModel`). Any number of requesters and one replier whose callback has a state of
  its own. Every call is split at its system calls, and a run is any sequence of enabled steps. What happened is kept in
  a history that the programs never read; all results are about the histories of all runs: `RpcLedger` (conservation of
  datagrams and the single token), `RpcHostile` (loss, reordering, copies, timeouts), `RpcLinear` (linearizability),
  `RpcStale` (exactly when it fails), `RpcProgress` (no deadlock, exact step counts).
- **The classes of that protocol** (`SocketUdp`, `RequestReply`). `SocketUDP`, `Reply` and `Request` with their fields
  and loops. Each method is proved equal to a specification function, and the specification functions are proved to be
  steps of `RpcModel`. Whether a receive fails, and what other processes do while a call is blocked, are parameters.
- **Publish/subscribe** (`PubSub` for C++; `PyRegistry` and `PyPublisher` for Python). In C++ the calls of a publisher
  and a subscriber are interleaved with losses on a channel between them. In Python the listener thread changes the
  client list while `publish` iterates over it by index (Python 3.8 Language Reference, section 8.3). The model
  interleaves the two threads at list operations; list places carry numbers so that a slot can be told from another
  with the same address.
- **The Python socket, replier and requester** (`PyUdpSocket`, `PyReply`, `PyPairing`). Every message and answer goes
  through `sendto`, so it may become several datagrams and may raise, which ends the process that sent it.
- **UTF-8 and `Ascii`** (`Utf8`, `Ascii`; RFC 3629), **the address filter** (`AddressScanner`; `Matches` is the
  backtracking meaning of the patterns, ECMA-262 3rd edition, section 15.10), and **descriptor ownership**
  (`Descriptors`).

## What the code does that its documentation does not say

- An idle requester's next calls can be trusted if and only if nothing of its earlier calls is outstanding: no request
  that `once` would accept, nothing in the replier's hands, no reply (`RpcStale.LinearizableIffSettled`). Otherwise its
  next call can return the answer to an earlier message (`RpcStale.StaleReturn`). One timeout, one copied request or
  one copied reply is enough to leave something outstanding; what happens to other requesters does not matter.
- A request with an empty message is dropped by `once`. Its call can still return, with a stale answer, exactly when
  something of an earlier call is outstanding; otherwise it can only time out (`RpcStale.EmptyCallReturnsIffStale`).
- `once(to)` answers a fixed address: it agrees with `once()` only when that is the sender
  (`RequestReply.FixedAddressAgrees`).
- `cpp/examples/rr.cpp:69` says a replier can have more than one callback. In C++ the last registration replaces the
  others. In Python every callback answers and the extra answers are handed to later requests
  (`PyPairing.PairingLaw`, `PyPairing.SingleCallbackPairs`).
- `UDPSocket.sendto` cuts its last piece from a name `buffer` that is bound nowhere, so every message longer than the
  limit raises after its whole pieces went out (`PyUdpSocket.UnboundBuffer`). Read as the data, it is right exactly when
  the length is no multiple of the limit; otherwise `-rem` is `-0` and the whole message goes out again
  (`PyUdpSocket.Fragmentation`). The constructor ignores its size argument; the limit is always 6000. So `publish` of
  more than 6000 bytes ends at its first client (`PyPublisher.PublisherThread.Publish`).
- A Python answer of 12000 bytes or more is several datagrams, and the next `request` returns the second of them
  (`PyPairing.SecondPieceReturned`, `PyPairing.VerboseMispairs`); between 6001 and 11999 bytes it is one datagram, after
  which the replier has ended (`PyPairing.LongAnswersMispair`, `PyPairing.NothingAfterLong`).
- When clients leave while `publish` walks the list, the clients still listed that it missed are as many as the removals
  of clients it had served, less the places by which it ended up beyond the list's end (`PyPublisher.PublishRace`).
  `PyPublisher.ClientMissed` is a run that misses one; `PyPublisher.NobodyMissed` one that removes and misses nobody.
- `-` is in neither character class of the address patterns (`AddressScanner.HyphenEndsAddress`), ports above 65535 wrap
  or throw (`AddressScanner.PrintedAddress`), and a port of '*' matches but throws
  (`AddressScanner.PortMustStartWithDigit`).
- `Socket` can be copied, and then a run can close a descriptor of the rest of the program, exactly when the copied
  socket held one (`Descriptors.CopyBreaksOwnership`). `makeSocket` can be called again, and then the descriptor held
  before is never closed on any run (`Descriptors.RemakeLeaks`).

`socket_defs.hpp` is not part of this model: `SOCKET_ERR` and `SOCKET_TIMEOUT` are taken as -1
(`cpp/src/marko/socket_udp.hpp:48`) and `message_t` as a vector of bytes (`cpp/readme.md:35-36`).

## Model

| member | source | states |
|---|---|---|
| Datagrams.FrameShape | cpp/src/marko/socket_udp.hpp:30-52 | a received message is empty exactly for an empty datagram or size 0, and otherwise has exactly the agreed size: the datagram's prefix, then zeros |
| Datagrams.FrameIdentity | cpp/src/marko/socket_udp.hpp:30-52 | receiving changes nothing exactly when the datagram is empty or already has the agreed size |
| SocketUdp.Kernel.RecvFrom | cpp/src/marko/socket_udp.hpp:37-43 | the system call fills the front of the buffer, leaves the rest, consumes the first waiting datagram; on failure -1 and nothing changes |
| SocketUdp.SocketUDP.RecvFrom | cpp/src/marko/socket_udp.hpp:30-57 | the method's buffer handling yields the frame of the first waiting datagram and its source, or an empty message on failure |
| SocketUdp.SocketUDP.SendTo | cpp/src/marko/socket_udp.hpp:59-70 | one datagram from the socket's address is put in flight |
| RequestReply.Reply.RegisterCb | cpp/src/marko/request_reply.hpp:41-41 | the last registered callback is the only one |
| RequestReply.Reply.Once | cpp/src/marko/request_reply.hpp:46-53 | receive, reject by size, call back, answer the captured sender; an empty callback throws after the datagram is consumed |
| RequestReply.Reply.OnceTo | cpp/src/marko/request_reply.hpp:60-69 | the same with the answer sent to a fixed address |
| RequestReply.OnceAnswers | cpp/src/marko/request_reply.hpp:46-69 | outcome by outcome: a failed receive and an empty frame call nobody; a full message without a callback raises after being used up; otherwise the answer to the frame goes to the sender, or to the fixed address |
| RequestReply.FixedAddressAgrees | cpp/src/marko/request_reply.hpp:60-69 | `once(to)` has the effect of `once()` if and only if nothing is answered or the sender is `to` |
| RequestReply.Request.Request | cpp/src/marko/request_reply.hpp:99-105 | sends first, then receives from whatever the environment made of the network: the empty message on a failure, the frame of the first waiting datagram otherwise |
| RequestReply.OnceRefinesProtocol | cpp/src/marko/request_reply.hpp:46-53 | a call of `once` is exactly the protocol's receive, call and send steps, or the receive alone |
| RequestReply.RequestRefinesProtocol | cpp/src/marko/request_reply.hpp:99-105 | a call of `request` is a send step, steps that are not the requester's own, and a receive or timeout step; the requester waits meanwhile, the method ends with the protocol's network, and its result, timed out or not, is the one `RpcHostile.HostileSafety` speaks of |
| RpcModel.EverywhereStep | cpp/src/marko/request_reply.hpp:46-53 | the network only moves, loses and copies what `once` and `request` post: what holds of every datagram keeps holding |
| RpcModel.WiredRun | cpp/src/marko/request_reply.hpp:46-53 | on every run datagrams travel only between a requester and the replier, and the replier answers only requesters |
| RpcLedger.Conservation | cpp/src/marko/request_reply.hpp:46-69 | in every reachable state, per requester: requests sent and copied = held by the network + lost + dropped as empty + taken; taken and reply copies = pending + held + lost + returned; calls = returned + timed out + waiting |
| RpcLedger.SingleToken | cpp/src/marko/request_reply.hpp:99-105 | a requester with no copies and no timeouts has exactly one datagram anywhere while it waits, unless it was lost or dropped, and none while idle |
| RpcHostile.AcceptsFullFrames | cpp/src/marko/request_reply.hpp:48-49 | the guard of `once` rejects exactly the datagrams whose frame is empty |
| RpcHostile.FixedSizes | cpp/src/marko/request_reply.hpp:46-49 | on every run the callback sees only messages of the agreed size, and results are empty or of the agreed size |
| RpcHostile.HostileSafety | cpp/src/marko/request_reply.hpp:46-53 | with losses, copies, reordering and timeouts, every non-empty result is the framed answer to a framed message the same requester had sent, and answers come from a sequential run of the callback |
| RpcLinear.Linearizability | cpp/src/marko/request_reply.hpp:99-105 | from any state of any run in which the requester is idle with nothing outstanding, and as long as nothing of its own is copied and it does not time out: each result is the framed answer of the one handling between its send and its return, handlings being a sequential run of the stateful callback |
| RpcLinear.LinearizableRun | cpp/src/marko/request_reply.hpp:99-105 | so a requester that is never disturbed sees a linearizable object from the start of the run |
| RpcLinear.HandlingsDistinct | cpp/src/marko/request_reply.hpp:99-105 | no two returns share a handling, calls of one requester do not overlap, and handlings respect real-time order |
| RpcLinear.OnCourseRun | cpp/src/marko/request_reply.hpp:46-53 | at every moment the requester's phase, the replier and every datagram agree with the requester's call history |
| RpcStale.LinearizableIffSettled | cpp/src/marko/request_reply.hpp:99-105 | the exact condition: in any state of any run, an idle requester's calls stay linearizable until it is disturbed if and only if nothing of its earlier calls is outstanding |
| RpcStale.StaleReturn | cpp/src/marko/request_reply.hpp:99-105 | otherwise, whatever it asks next, some continuation without any disturbance returns an answer although nothing was handled during the call |
| RpcStale.TimeOutLeavesAnswer | cpp/src/marko/request_reply.hpp:99-105 | one timeout is enough for a run in which a call for [6] returns the answer to [5] |
| RpcStale.RequestCopyLeavesAnswer | cpp/src/marko/request_reply.hpp:46-53 | so is one copied request |
| RpcStale.ReplyCopyLeavesAnswer | cpp/src/marko/request_reply.hpp:99-105 | and one copied reply |
| RpcStale.EmptyCallReturnsIffStale | cpp/src/marko/request_reply.hpp:48-49 | a call with an empty message, which `once` drops, can return if and only if something of an earlier call is outstanding |
| RpcProgress.Progress | cpp/examples/rr.cpp:36-42 | N calls against N calls of `once`, nothing lost or copied: a step is possible until exactly 7N have been taken, and then every call of every requester has been answered and nothing is left over |
| RpcProgress.NoDeadlock | cpp/examples/rr.cpp:70-70 | before the end some step is always possible |
| RpcProgress.RemainingStep | cpp/src/marko/request_reply.hpp:46-53 | every step brings the end exactly one step nearer |
| RpcProgress.AnsweredCorrectly | cpp/examples/rr.cpp:36-42 | in a finished run no call timed out and every answer is the linearized one |
| PubSub.Publisher.Bind | cpp/src/marko/pub_sub.hpp:55-58 | the address is registered even when binding fails |
| PubSub.Publisher.Connect | cpp/src/marko/pub_sub.hpp:60-63 | the address is registered even when reuse or binding fails |
| PubSub.Publisher.Publish | cpp/src/marko/pub_sub.hpp:51-53 | one datagram per registration, in registration order |
| PubSub.Publisher.Run | cpp/src/marko/pub_sub.hpp:51-68 | any run of calls on a publisher registers and sends what the specification says |
| PubSub.PublisherSendsDue | cpp/src/marko/pub_sub.hpp:51-68 | for every run of calls, what is sent to an address is each published message in order, as often as the address was registered by then |
| PubSub.Subscriber.RegisterCb | cpp/src/marko/pub_sub.hpp:24-24 | callbacks are added at the end and start with nothing seen |
| PubSub.Subscriber.Once | cpp/src/marko/pub_sub.hpp:29-33 | a non-empty frame is passed once to every callback; an empty one and a failure to none |
| PubSub.Subscriber.Run | cpp/src/marko/pub_sub.hpp:24-33 | any run of calls on a subscriber gives its callbacks what the specification says |
| PubSub.CallbackLog | cpp/src/marko/pub_sub.hpp:29-33 | a callback has seen the non-empty frames of exactly the datagrams received since its registration |
| PubSub.SessionKeepsOrder | cpp/src/marko/pub_sub.hpp:24-68 | on every interleaving of publisher, channel and subscriber, what was received and what is on the way is what was sent, in order, except what was lost |
| PubSub.PubSubRefinement | cpp/src/marko/pub_sub.hpp:24-68 | on every such interleaving every callback sees a subsequence of the frames of what its address was due; callbacks registered before any receipt see the same; without losses they see all of it |
| PyRegistry.ControlBytes | python/pymarko/udpsocket.py:138-149 | exactly the bytes of "subscribe" and "shutdown" are control messages, among all byte strings |
| PyPublisher.PublisherThread.Listen | python/pymarko/udpsocket.py:136-154 | the listener's loop computes the registry of what it received |
| PyRegistry.RegistryClosedForm | python/pymarko/udpsocket.py:146-154 | an address's multiplicity is the maximum, over all suffixes of the history, of its subscribes minus its shutdowns |
| PyRegistry.ListenClosedForm | python/pymarko/udpsocket.py:136-154 | the same over what arrives on the socket: the multiplicity is the maximum over suffixes of the datagrams from the address that spell "subscribe" minus those that spell "shutdown"; timeouts and all else count nothing |
| PyRegistry.RemovesFirst | python/pymarko/udpsocket.py:149-154 | a shutdown takes out the first entry of the address and only that |
| PyRegistry.OthersKeepOrder | python/pymarko/udpsocket.py:146-154 | handling a message from one address leaves all others in place and in order |
| PyPublisher.PublisherThread.Publish | python/pymarko/udpsocket.py:121-123 | the `for` loop, interrupted by the listener before any step, is the interleaved walk, each client getting all pieces of the data; it runs to its end unless data over 6000 bytes makes the first send raise |
| PyPublisher.EachGetsAll | python/pymarko/udpsocket.py:121-123 | the i-th client sent to gets every piece of the data, in order, after all clients before it |
| PyPublisher.SentToOwners | python/pymarko/udpsocket.py:121-154 | on every interleaving each send goes to the address whose slot it serves |
| PyPublisher.RoundsHeed | python/pymarko/udpsocket.py:121-123 | by its n-th step the walk has let the listener do exactly what it does before that step |
| PyPublisher.ListenerHandles | python/pymarko/udpsocket.py:146-154 | a listener step changes the numbered list as it changes the plain one and does not touch the walk |
| PyPublisher.SkippedStep | python/pymarko/udpsocket.py:121-123 | one more slot is passed over exactly when a slot already sent to is removed |
| PyPublisher.PublishRace | python/pymarko/udpsocket.py:121-154 | for every interleaving: no slot is sent to twice, sends are bounded by slots plus appends, slots missed at the end are counted exactly and are at most the removals, and without removals every slot is served in order |
| PyPublisher.AllServed | python/pymarko/udpsocket.py:121-154 | a finished walk has served everyone still listed if and only if the removals of served slots equal the places by which it overran the list |
| PyPublisher.ClientMissed | python/pymarko/udpsocket.py:121-154 | a run in which client 1 is served and leaves, and client 2 is missed |
| PyUdpSocket.SendTo | python/pymarko/udpsocket.py:44-60 | the chunking loop sends the specified pieces and returns or raises as specified |
| PyUdpSocket.Fragmentation | python/pymarko/udpsocket.py:44-60 | with `buffer` read as the data: pieces join to the data, fit the limit, are non-empty and as few as possible if and only if the data fits one packet or is no multiple of the limit; otherwise the data follows itself |
| PyUdpSocket.UnboundBuffer | python/pymarko/udpsocket.py:54-56 | as written, the call raises if and only if the data exceeds the limit, having sent its whole pieces, each of the limit's size |
| PyUdpSocket.LongPost | python/pymarko/udpsocket.py:44-60 | a message over 6000 bytes makes more than one datagram exactly from 12000 bytes on (or with `buffer` bound), and the sender survives only with `buffer` bound |
| PyReply.Reply.RegisterCb | python/pymarko/udpsocket.py:174-175 | callbacks accumulate in order |
| PyReply.Reply.Turn | python/pymarko/udpsocket.py:177-188 | a timeout or an empty message draws nothing; otherwise, if every answer given fits one datagram, exactly the values of the callbacks that return one are sent, in callback order; a long answer goes out in pieces and may raise |
| PyReply.AnswersGiven | python/pymarko/udpsocket.py:185-188 | silent callbacks add nothing, and each other callback adds its value once, in order |
| PyReply.TurnRefinesLoop | python/pymarko/udpsocket.py:177-188 | a turn is a run of the replier's steps in the interleaved model |
| PyReply.RepliesFollowStream | python/pymarko/udpsocket.py:177-197 | on every interleaving, with answers cut into datagrams and processes ended by exceptions, the requester receives an initial part of one fixed stream of datagrams |
| PyPairing.PairedIffNotOverdrawn | python/pymarko/udpsocket.py:177-197 | every call of every run gets a datagram its own message drew if and only if no message, after others that drew one each, draws more than one while a request follows |
| PyPairing.PairingLaw | python/pymarko/udpsocket.py:177-197 | if all k callbacks answer and every message and answer fits one datagram, the j-th request returns the answer of callback j mod k to message j div k |
| PyPairing.SingleCallbackPairs | python/pymarko/udpsocket.py:167-197 | under these conditions calls and answers pair on every run if and only if there is at most one callback or at most one call |
| PyPairing.LongAnswersMispair | python/pymarko/udpsocket.py:44-60 | one callback with long answers: calls pair on every run if and only if the first answer over 6000 bytes, unless it is the last, has fewer than 12000 bytes (and `buffer` stays unbound) |
| PyPairing.SecondPieceReturned | python/pymarko/udpsocket.py:44-60 | from 12000 bytes on, some run returns the second piece of the answer to the next call |
| PyPairing.VerboseMispairs | python/pymarko/udpsocket.py:44-60 | a concrete run: the call for [2] returns a byte of the 12000-byte answer to [1] |
| PyPairing.EachCallAnswered | python/pymarko/udpsocket.py:177-197 | if every message draws exactly one datagram, whichever callbacks keep silent, steps are possible until exactly messages times (callbacks + 4) have been taken, and then every call has returned what its own message drew |
| Utf8.DecodeEncode | python/pymarko/transport.py:58-62 | a text encodes if and only if it has no surrogate, and then decodes to itself |
| Utf8.EncodeDecode | python/pymarko/transport.py:58-62 | whatever decodes is the encoding of its text |
| Utf8.RuneBytes | python/pymarko/transport.py:58-59 | the number of bytes for each range of code points and what they are, as in the table of RFC 3629, section 3 |
| Ascii.RoundTrip | python/pymarko/transport.py:58-62 | `loads(dumps(xs)) == xs` if and only if xs is non-empty and no field contains ':' |
| Ascii.DumpsSucceeds | python/pymarko/transport.py:58-59 | `dumps` succeeds if and only if every field is encodable |
| Ascii.DumpsFields | python/pymarko/transport.py:58-59 | the result is the encodings of the fields in order with one byte 0x3A between any two |
| Ascii.DumpsNothing | python/pymarko/transport.py:58-62 | no field dumps to the empty message, which loads as one empty field |
| Ascii.DumpsLoads | python/pymarko/transport.py:58-62 | `dumps(loads(b)) == b` for every valid UTF-8 b |
| Ascii.SplitBytesFirst | python/pymarko/transport.py:61-62 | splitting the bytes at ':' and decoding each part is the same as decoding and then splitting, failures included |
| AddressScanner.ScanIsFilter | cpp/examples/regex.cpp:16-55 | on every string the two backtracking searches and the conversions after them give what a deterministic scanner gives |
| AddressScanner.ClassMembers | cpp/examples/regex.cpp:18-33 | which characters each class holds, spelled out |
| AddressScanner.FilterExamples | cpp/examples/regex.cpp:60-65 | what the program's own three calls give |
| AddressScanner.NothingFound | cpp/examples/regex.cpp:18-24 | nothing is found exactly when no protocol name, "://" and path character stand together anywhere |
| AddressScanner.UnixAddress | cpp/examples/regex.cpp:25-30 | a Unix path runs as far as its characters do, whatever surrounds the address |
| AddressScanner.ProtoAt | cpp/examples/regex.cpp:18-20 | where the first pattern matches and that its second group is the longest possible |
| AddressScanner.IpPortAt | cpp/examples/regex.cpp:33-36 | where the second pattern matches and that backtracking never shortens the host |
| AddressScanner.PrintedAddress | cpp/examples/regex.cpp:31-41 | what comes back from a printed address for either protocol, every host text and every port number, with text before and after it: the port modulo 65536, or an exception |
| AddressScanner.AddressRoundTrip | cpp/examples/regex.cpp:31-41 | printing and scanning gives back host and port if and only if the port is at most 65535 |
| AddressScanner.PortMustStartWithDigit | cpp/examples/regex.cpp:33-41 | a port text that begins with '*' or ',' matches and then makes `stoi` throw |
| AddressScanner.HyphenEndsAddress | cpp/examples/regex.cpp:18-41 | a hyphen after a host without a port makes the filter throw |
| Descriptors.Socket.constructor | cpp/src/marko/socket.hpp:48-48 | a new socket holds no descriptor |
| Descriptors.Socket.Close | cpp/src/marko/socket.hpp:51-56 | closes what is held and forgets it; again has no effect |
| Descriptors.Socket.Destroy | cpp/src/marko/socket.hpp:49-49 | the destructor closes |
| Descriptors.Socket.MakeSocket | cpp/src/marko/socket.hpp:131-139 | takes the kernel's answer; a failure leaves nothing held and closes nothing |
| Descriptors.DescriptorOwnership | cpp/src/marko/socket.hpp:48-139 | over every run with reused numbers: live sockets hold distinct descriptors, exactly the open ones that are theirs; each is closed once per opening, never twice, never someone else's, and all are closed when no socket lives |
| Descriptors.ClosedForOthers | cpp/src/marko/socket.hpp:42-56 | after a copy: the first destruction closes the descriptor, the program is given its number again, the second destruction closes it under the program |
| Descriptors.CopyBreaksOwnership | cpp/src/marko/socket.hpp:42-49 | after a copy no run closes a descriptor of the rest of the program, if and only if the copied socket held none |
| Descriptors.OrphanStaysOpen | cpp/src/marko/socket.hpp:48-139 | an open descriptor that no live socket holds and that is not the program's stays so on every run |
| Descriptors.RemakeLeaks | cpp/src/marko/socket.hpp:131-139 | after `makeSocket` is called again, every run that ends without sockets has closed everything if and only if nothing was held; otherwise what was held stays open on every run |

## Left out

- Socket options, `select` helpers, `reuseSocket` beyond its result, and timeouts as wall-clock time: foreign calls; a
  receive that may fail is all that is kept of them.
- `inet_sockaddr`, `unix_sockaddr`, `to_string`, `pack`, `unpack`: defined in a header that is not part of this model.
- `SocketBC` and `SocketUnix`: further instances of the same port, where only the address type differs.
- `SO_REUSEPORT` delivery between sockets bound to one address: the kernel chooses, so a datagram that goes astray is
  lost. A C++ send that the system refuses is also a lost datagram: `once`, `request` and `publish` ignore its result.
- `Json` and `Pickle`: wrappers over library codecs. `MCSocket` is a stub; `info.hpp`, `ip.py` and `time.hpp` print or
  sleep.
- The Python `Subscriber.loop` dispatches like the C++ `Subscriber::once` in a loop. It differs in its receive, which
  cuts a datagram at `datasize` but never pads it, as in `PyReply.Cut`; that loop has no model of its own.
- Class-level lists `cb` and `clientaddr` in Python are shared by all instances; each model has one list.
- `PublisherThread.listen` names `Thread` without importing it; the intended listener thread is modelled.
- Requests to addresses other than the replier's, and several repliers behind one requester.
- PyPairing.PairingLaw: the channel is lossless and in order; loss and reordering are the subject of the C++ protocol.
- PubSub.Subscriber.Once: callbacks are known by the messages they were called with; what they compute is not modelled.
- RpcProgress.Progress: calls with an empty message are excluded because `once` drops them, so that without losses and
  timeouts they wait for ever.
