# file_web_server: a verified model

This project models a single-threaded HTTP/1.1 file server built on kqueue, with
optional TLS, and proves properties of the model with Dafny 4.11. Check everything with
`dafny verify dfyconfig.toml`.

The model has three layers. On top of them, `Refusals.dfy` says what one wakeup of the loop
does with a complete request, `Leaks.dfy` gives runs after which a descriptor or a slot is
gone for good, and `Misreadings.dfy` responses that arrive intact and are misread.

- **The event loop** (`EventLoop.dfy`, `Journal.dfy`, `ConnectionPool.dfy`,
  `Kernel.dfy`): a fixed pool of connection slots over an index stack, an intrusive doubly
  linked list of idle connections, a deferred list of kqueue changes, and the accept,
  timer, connection and end-of-file events that work on them. The kernel is a descriptor
  table whose handles carry serial numbers, a registry from (descriptor, filter) to udata
  that forgets a descriptor when it is closed, and a clock that does not go back.
- **Connections** (`Connection.dfy`, `Sending.dfy`, `SendingRuns.dfy`, `Reading.dfy`,
  `Responding.dfy`, `Client.dfy`, `Fields.dfy`, `Answers.dfy`, `Wakeups.dfy`, `Stream.dfy`,
  `Session.dfy`, `Exchanges.dfy`, `Serving.dfy`, `Wants.dfy`): requests are read and responses sent in pieces. Each method of the
  class is proved equal to a step function; the theorems are about all runs of those step
  functions under all outcomes of `read`, `write`, `sendfile`, `pread` and `SSL_write`.
  A `Wakeups.Chain` is any sequence of `process_connection` wakeups of one connection,
  each with outcomes of its own, among them what the file system and the clock say then.
  What a client sees is read from the bytes: the status line, the lines under six names, the
  interval in Content-Range and the body, all as texts and numbers.
- **Text and arithmetic** (`Text.dfy`, `HttpRequest.dfy`, `RequestProperties.dfy`,
  `HttpResponse.dfy`, `ByteRange.dfy`, `FileServer.dfy`, `PathProperties.dfy`,
  `EscapeProperties.dfy`): the request parser, byte
  ranges, header serialisation, path normalisation and percent-encoding, each loop proved
  against a function and each function against its inverse or an independent meaning.

System calls are outcomes chosen freely from outside (`Io`, `SendIo`, `Wakeup`). `wire`
is every byte a socket took.

The invariant of the loop, `EventLoop.EventLoop.Valid`, says: the idle list is a
well-formed acyclic doubly linked list whose members are exactly the connections in
KEEP_ALIVE; every connection's handles are open and no handle is held twice; every open
socket belongs to the live connection that holds it; a free slot is closed; after the
pending changes exactly one filter of each live connection is armed, names it, and is that
of the last want other than NONE (to read, for a new connection); nothing else is armed but
the listener and the timer; only open descriptors are ever added; and exactly the live
connections have a ghost story, a chain of wakeups from the opening to what the connection
is now, with the time of its last read. It holds after every wakeup of every schedule.
`Kernel.Close` demands an open descriptor and `ConnectionPool.Release` a slot that is out,
so these calls are proved never to be made twice.

`EventLoop.EventLoop.Run` refines an abstract machine, `Journal.dfy`. Its book holds the
stories, the slots that are out and the clock. Each round delivers the event that the
registry has for the entry that fires, and does one deed: nothing, one wakeup of one
connection, dropping one, taking new ones in, or sweeping the overdue ones. Each deed is in
order by the book so far, and the book changes by the deeds alone. So a connection ends
only when its own wakeup closes it, an error or end of file names it, or it is overdue at
the timer; and what holds of all chains of wakeups holds of every connection at every
moment of a run.

## Model

| member | source | states |
|---|---|---|
| EventLoop.EventLoop.Run | src/core/event_loop.cpp:131-149 | From a valid loop, any sequence of `kevent` returns, one event each, with any outcomes, keeps the whole invariant and is a journal of the abstract machine: every round delivers the entry that fires from a registry that mirrors the book, does one deed in order, and the book at the end is what the deeds make of it; a closed slot that is still out stays out, and an open descriptor that no connection holds stays one. |
| EventLoop.EventLoop.WakeOnce | src/core/event_loop.cpp:132-148 | One round: the event is that of the named entry in the registry with the pending changes applied, or the failure without udata when there is none; what is done fits it; stories, slots out and clock change by that alone; an accept takes what the backlog and the pool allow. |
| EventLoop.EventLoop.SettledMirrors | src/core/event_loop.cpp:553-577 | With nothing pending, every entry is the listener's, the timer's or that of the last want of a live connection, and each live connection has exactly one. |
| EventLoop.EventLoop.ArmedByState | src/core/event_loop.cpp:553-577 | At any moment of any run a live plain connection is armed to write exactly while a response is under way or being tried, to read otherwise, and never for both. |
| Journal.DeedBalanced | src/core/connection_pool.h:35-52 | A deed in order keeps the balance: the slots out are those of the live connections, one each, and those of connections closed by their reply. |
| Journal.SlotsAccounted | src/core/event_loop.cpp:131-149 | At any moment of any run exactly the slots of live connections and of connections that a reply closed are out, and none is both. |
| Journal.JournalGrows | src/core/event_loop.cpp:131-149 | A round in order after a journal is a journal, and the book is that before it changed by its deed. |
| EventLoop.ServeFrom | src/main.cpp:108-113 | From a listening descriptor on, whatever happens, the server never leaves the invariant, its run is a journal from the empty book, and the slots out are those of live connections and of connections closed by a reply. |
| EventLoop.EventLoop.constructor | src/core/event_loop.cpp:19-25 | The invariant holds at the start, around a kernel with a listener and no connection. |
| EventLoop.EventLoop.AddListener | src/core/event_loop.cpp:71-93 | The listener and the timer are registered under their tags and nothing else is disturbed. |
| EventLoop.EventLoop.FlushChangelist | src/core/event_loop.cpp:54-61 | The registry becomes the old one with the pending changes applied in order, and none is pending. |
| EventLoop.EventLoop.Kevent | src/core/event_loop.cpp:132-140 | Submits and forgets the changes; what is delivered is the entry named, with its flags, from the registry so changed, and a failure without udata when it has no such entry. |
| EventLoop.EventLoop.DeliveredIsLive | src/core/event_loop.cpp:161-195 | Every delivered udata other than the two tags is an open connection of the pool whose slot is out. |
| EventLoop.EventLoop.Dispatch | src/core/event_loop.cpp:161-195 | An error or end-of-file event ends the connection it names and frees its slot; the listener starts connections in free slots, in the order of the backlog, until none is left, `accept` fails or all slots are out; the timer ends every connection overdue when it starts and none that is not when it ends; any other event gives the one named one wakeup; no other story, slot or filter changes; the invariant is kept. |
| EventLoop.EventLoop.SweepIdle | src/core/event_loop.cpp:246-263 | Exactly the idle connections whose last read is longer ago than the timeout are ended by a timer event, judged by their stories and by their clocks, and their slots freed; no other connection changes. |
| EventLoop.EventLoop.ProcessConnection | src/core/event_loop.cpp:291-385 | One wakeup is exactly what `Worked` says and is added to the story, which decides the armed filter; a reply goes by what the file system says and by the descriptors open then, and no descriptor is opened but that of a file it answers with; the slot is freed exactly when the connection closed outside the inline reply; a file held from an earlier attempt is left open without a holder exactly when the request parses and is answered with a file; the clock of the connection is put forward exactly by reads and by the end of detection. |
| EventLoop.EventLoop.Record | src/core/event_loop.cpp:553-577 | With a wakeup added to the story, the filter wanted is that of its want, or the one before when that is NONE, and every other connection wants what it wanted. |
| EventLoop.EventLoop.ClientRecovers | src/core/event_loop.cpp:131-149 | At any moment of any run and for every live connection, the wire is a prefix of the responses its wakeups told, and between responses a client recovers exactly their bodies if and only if its notes of where it asked HEAD suit them. |
| EventLoop.EventLoop.Advance | src/core/event_loop.cpp:300-373 | The turn and the inline reply compose to one wakeup, with every invariant but the list's agreement kept in between. |
| EventLoop.EventLoop.TurnKeepsAll | src/core/event_loop.cpp:300-334 | Whatever handles one connection gives up in its turn, every other connection keeps its own, no foreign descriptor is closed, and the registrations stay right. |
| EventLoop.EventLoop.SyncList | src/core/event_loop.cpp:375-382 | After a turn the list again holds exactly the KEEP_ALIVE connections. |
| EventLoop.EventLoop.UpdateEvents | src/core/event_loop.cpp:553-577 | Exactly the changes of the want are queued, and with them each live connection, this one and all others, has the one filter of its last want; NONE and a closed connection queue nothing. |
| EventLoop.EventLoop.RearmKeepsRegs | src/core/event_loop.cpp:558-571 | Adding the wanted filter and deleting the other arms exactly the wanted one and leaves every other connection its own. |
| EventLoop.EventLoop.PrepareResponse | src/core/event_loop.cpp:400-541 | The connection is left as `Prepared` with the plan of the answer to its request, which `Answers.dfy` describes as a client sees it; it holds a newly opened file with the content served when that answer has a file part, and otherwise whatever it held before. |
| EventLoop.EventLoop.FileLost | src/core/connection.cpp:413-421 | A file held from an earlier attempt is left open with no connection holding it if and only if the new answer has a file part. |
| Refusals.RejectsPath | src/core/event_loop.cpp:439-482 | A wakeup with a complete GET or HEAD for a path that is rejected, by the conditions of the reference reading, opens no descriptor whatever the file system says, and the client is told 400. |
| Refusals.ReplyFits | src/core/event_loop.cpp:400-541 | Whatever a wakeup tells of a GET or HEAD, as the client sees it, fits the request and what the file system said. |
| Refusals.AnswersPath | src/core/event_loop.cpp:438-541 | A wakeup with a complete GET or HEAD for any other path tells what the file system says, as 404 when a file found does not open, and opens a descriptor only for a file it answers with. |
| Refusals.IgnoresMethod | src/core/event_loop.cpp:342-373 | A wakeup with a complete request of any other method opens, sends and tells nothing and leaves the request in PARSING. |
| EventLoop.EventLoop.TurnKeepsLost | src/core/connection.cpp:93-116 | What a turn gives up it closes: no descriptor is lost in it, and a lost one stays open. |
| Leaks.LosesFile | src/core/event_loop.cpp:342-373 | Found, header write refused, found again: after these two wakeups the first descriptor is open and no connection holds it, and that stays so over any further run of the loop. |
| Leaks.StrandsSlot | src/core/event_loop.cpp:363-384 | A whole request arrives in READING and the header write fails: the connection is closed with its slot out, and still is after any further run of the loop. |
| EventLoop.EventLoop.HandleAccept | src/core/event_loop.cpp:205-234 | Takes the pending connections in order, each into a slot that was closed, and stops only when none is left, `accept` fails or all slots are out; a socket without a slot is closed; live connections are untouched. |
| EventLoop.EventLoop.CreateConnection | src/core/event_loop.cpp:588-606 | A free slot takes over the socket and is armed for reading; null exactly hands the socket back with all slots out. |
| EventLoop.EventLoop.HandleTimer | src/core/event_loop.cpp:246-263 | Every list member expired at the start is destroyed and its slot released once; every one destroyed was expired when checked; the rest keep order and state; the walk ends although it unlinks under its own cursor. |
| EventLoop.EventLoop.NextInWalk | src/core/event_loop.cpp:251-259 | The `next` read before a member is destroyed is the next member of the original list. |
| EventLoop.EventLoop.DestroyConnection | src/core/event_loop.cpp:643-660 | The connection leaves the list, both its filters are queued for deletion, it is closed, and its slot is released; all else is kept. |
| EventLoop.EventLoop.AddToKeepaliveList | src/core/event_loop.cpp:610-619 | The list gains the connection in front, once, and stays well formed. |
| EventLoop.EventLoop.RemoveFromKeepaliveList | src/core/event_loop.cpp:621-633 | The list loses exactly this connection, the others in order, and stays well formed. |
| EventLoop.WithoutAt | src/core/event_loop.cpp:625-630 | In a list without repetitions, taking out the member at a position closes the gap there. |
| EventLoop.WithoutTwice | src/core/event_loop.cpp:252-259 | Taking out members one after the other is taking them out together. |
| ConnectionPool.ConnectionPool.constructor | src/core/connection_pool.h:23-29 | All slots are free. |
| ConnectionPool.ConnectionPool.Acquire | src/core/connection_pool.h:35-41 | Fails exactly when every slot is out; otherwise hands out a slot that was not. |
| ConnectionPool.ConnectionPool.Release | src/core/connection_pool.h:47-52 | Takes exactly this slot back, in any order of releases. |
| ConnectionPool.PopFree | src/core/connection_pool.h:36-40 | The free suffix and the acquired slots stay complementary when the head is handed out. |
| ConnectionPool.PushFree | src/core/connection_pool.h:48-51 | Giving back a slot that is out keeps the free suffix free of repetitions and complementary. |
| ConnectionPool.ConnectionPool.ActiveCountIsAcquired | src/core/connection_pool.h:39-51 | The counter is the number of slots that are out. |
| ConnectionPool.ComplementSize | src/core/connection_pool.h:36-51 | Free and acquired slots add up to 16384. |
| Kernel.Kernel.Submit | src/core/event_loop.cpp:58-60 | Changes apply in order; no closed descriptor is ever added. |
| Kernel.Kernel.Close | src/core/connection.cpp:98-102 | Closing drops the descriptor and its registrations; each handle is closed at most once. |
| Kernel.LedgerIssue | src/core/event_loop.cpp:210-212 | Conservation: with a new handle, every handle issued is still open under one number or closed. |
| Kernel.LedgerClose | src/core/connection.cpp:98-113 | Conservation when a handle is closed, also when its number is reused later. |
| Kernel.ForgetAfterChanges | src/core/event_loop.cpp:651-658 | Closing a descriptor commutes with pending changes that add nothing on it. |
| Connection.Connection.Init | src/core/connection.cpp:26-54 | A slot that holds no handle takes over the socket; only the header and chunk buffers keep old contents. |
| Connection.Connection.Reset | src/core/connection.cpp:63-85 | Ready for the next request; a file still held is closed, nothing else. |
| Connection.Connection.Close | src/core/connection.cpp:93-116 | Exactly the handles it held are closed, once; a second close does nothing. |
| Connection.Connection.DoProtoDetect | src/core/connection.cpp:137-176 | The first byte decides between plain text, TLS and the error page, as `Peeking`, described by `Serving.FirstByteDecides`. |
| Connection.Connection.DoTlsAccept | src/core/connection.cpp:192-222 | The handshake outcome decides, as `Handshaking`, described by `Serving.HandshakeTold`. |
| Connection.Connection.DoRead | src/core/connection.cpp:234-291 | One read is `ReadStep` on state and buffer, described by `Reading.ReadMeans`, and puts the clock forward. |
| Connection.Connection.DoParse | src/core/connection.cpp:305-331 | The buffer is parsed; a malformed request gets the 400 page. |
| Connection.Connection.PrepareHeaders | src/core/connection.cpp:338-342 | The response serialised, to be sent from its first byte. |
| Connection.Connection.SetSendFile | src/core/connection.cpp:413-421 | The file part start..end is what remains to be sent. |
| Connection.Connection.DoSendHeaders | src/core/connection.cpp:353-399 | One call is the step `SendHeaders`, the body tried at once after the last header byte; `Wants.StepWaits` and `Wants.StepSends` say what it waits for, when it closes and how much it sends. |
| Connection.Connection.DoSendBodyPlain | src/core/connection.cpp:433-467 | One call is the step `SendPlain`. |
| Connection.Connection.DoSendBodyTls | src/core/connection.cpp:481-532 | One call is the step `SendTls`, with the wants, failures and amounts of `Wants.StepWaits` and `Wants.StepSends`. |
| Connection.Connection.DoSendBody | src/core/connection.cpp:544-589 | One call is the step `SendBody`, memory or file, plain or TLS, with the wants, failures and amounts of `Wants.StepWaits` and `Wants.StepSends`. |
| Connection.TurnThenReply | src/core/event_loop.cpp:300-373 | The turn of the state machine followed by the inline reply is the wakeup `Worked` describes, in every state. |
| Connection.ClosedBeforeReply | src/core/event_loop.cpp:342-373 | A connection closed in a wakeup is destroyed there exactly when the wakeup did not go on to reply. |
| Sending.StepMovesOn | src/core/connection.cpp:353-589 | Every sending call moves bytes from what is owed to the wire: none lost, repeated or reordered; a broken connection has sent a prefix. |
| SendingRuns.RunEmits | src/core/connection.cpp:353-589 | Over any schedule the wire holds a prefix of what was owed, and all of it on reaching KEEP_ALIVE. |
| SendingRuns.FileBodyEmitted | src/core/connection.cpp:433-532 | Plain and TLS senders both emit a prefix of file[start..end], nothing for an empty file, and all of it on reaching KEEP_ALIVE. |
| SendingRuns.PlainAndTlsAgree | src/core/connection.cpp:586-588 | The two senders put the same bytes on the wire, whatever their schedules. |
| SendingRuns.FilePositionMeansEmitted | src/core/connection.cpp:454-530 | At every moment the bytes emitted are file[start..offset + in-flight chunk sent], and offset + remaining = end + 1. |
| SendingRuns.StepProgress | src/core/connection.cpp:353-589 | A call that transfers a byte or changes state lowers the bytes owed; an idle one leaves the same bytes to offer. |
| SendingRuns.BusyCallsBounded | src/core/connection.cpp:353-589 | No run makes more non-idle calls than the weight it starts with. |
| SendingRuns.IdleIffRefused | src/core/connection.cpp:353-589 | A call changes nothing but what is buffered exactly when the outcome it depends on lets no byte through. |
| SendingRuns.SendingEnds | src/core/connection.cpp:353-589 | A schedule longer than its idle calls and the starting weight together ends in KEEP_ALIVE or CLOSED. |
| Wants.StepWaits | src/core/connection.cpp:353-589 | Every sending call closes the connection if and only if the write it tries is fatal, the file cannot be read, or `sendfile` fails; it waits to read once the response is out, and until then to write, but for a TLS connection whose last write asked to read. |
| Wants.PlainStepWants | src/core/connection.cpp:374-375 | A plain connection waits to write until its response is out. |
| Wants.StepSends | src/core/connection.cpp:353-589 | Every sending call puts as many bytes on the wire as the socket takes, by the outcomes it meets. |
| Wants.WakeupWants | src/core/event_loop.cpp:291-385 | After any wakeup a plain connection waits to write while a response is under way or being tried, to read while it waits for a request, and for nothing with a request that is not served. |
| Wants.PlainChainWants | src/core/event_loop.cpp:553-577 | Over any chain of wakeups from the opening, the direction a plain connection last waited for is decided by its state and buffer. |
| Wants.ReadingWants | src/core/connection.cpp:234-270 | A read on TLS that asks to write makes the connection wait to write, and otherwise to read, as long as no request is complete. |
| SendingRuns.ResponseAfterWaste | src/core/event_loop.cpp:363-373 | From PARSING, with each wakeup building a response of its own, a completed response is the header pieces of the attempts started over, then the header of the attempt that got through with its own body or, when it has no file, what a file held from an earlier attempt still had. |
| SendingRuns.IntactIff | src/core/event_loop.cpp:313-315 | A completed response is intact if and only if the first header write that takes anything takes the whole header and no file held from an earlier attempt stands in for a page; both are read off the plans and the outcomes of the header writes. |
| Wakeups.RecycledLikeFresh | src/core/connection.cpp:26-54 | From the opening of a slot on, over any chain of wakeups with the same outcomes, every byte, want and state is the same whatever the header and chunk buffers held before. |
| Wakeups.ResetLikeFresh | src/core/connection.cpp:63-85 | From KEEP_ALIVE on, nothing of the responses before shows in any later wakeup but the socket and the TLS flag. |
| Wakeups.ChainGrows | src/core/event_loop.cpp:291-385 | A wakeup after a chain is a chain, and its last want is the new one unless that is NONE. |
| Reading.ReadKeepsBounded | src/core/connection.cpp:234-291 | READING never holds more than 65536 bytes nor a terminator; no buffer exceeds 65536 + 4096. |
| Reading.ReadMeans | src/core/connection.cpp:234-291 | One read takes at most 4096 bytes; the buffer is complete once it holds an empty line, and too long beyond 65536 bytes without one; end of file and failures close, refusals wait. |
| Reading.CuttingReachesParsing | src/core/connection.cpp:234-291 | However the input is cut, a terminator ending by byte 65537 is reached. |
| Reading.CuttingIndependence | src/core/connection.cpp:234-331 | Two cuttings of the same input, with any refusals between, parse to the same request. |
| Reading.LateTerminatorCloses | src/core/connection.cpp:283-288 | A later terminator, delivered byte by byte, meets a closed connection. |
| Reading.EveryCuttingParsesIff | src/core/connection.cpp:272-290 | Every cutting reaches PARSING if and only if the terminator ends by byte 65537. |
| Reading.IdleParsesOneRead | src/core/event_loop.cpp:325-329 | In KEEP_ALIVE, where each wakeup clears the buffer first, what is parsed is the first read with a terminator in it, alone. |
| Reading.WholeIffOneRead | src/core/event_loop.cpp:325-329 | In KEEP_ALIVE a complete request is parsed whole if and only if one read holds all of it. |
| Responding.AnswerFits | src/core/event_loop.cpp:505-540 | Every answer's file part lies inside the file. |
| Responding.AnswerFramed | src/core/event_loop.cpp:400-541 | For every request and lookup, Content-Length is the number of body bytes sent, none for 304 and HEAD, and no header holds a stray line break. |
| Responding.PieceIsServed | src/core/event_loop.cpp:505-540 | The response to a ranged GET sends exactly the piece asked for. |
| Fields.HeaderSeen | src/http/http_response.cpp:121-180 | A client that reads the header lines finds each field that was set under its name, once, and no other, and the status line first. |
| Fields.DateSeen | src/http/http_response.cpp:133-136 | The Date line is there, once. |
| Fields.StatusTable | src/http/http_response.cpp:57-75 | The codes and phrases of the ten statuses, as texts. |
| Answers.RejectedIff | src/server/file_server.cpp:50-109 | A path is rejected by normalize if and only if its decoding holds a control character other than the tab, some prefix of its segments climbs above the root, or a segment that survives starts with a dot. |
| Answers.RejectedIsSeen | src/server/file_server.cpp:144-148 | Such a path is answered with 400 and its page, and no file, whatever the file system says. |
| Answers.PageOrRefusalIsSeen | src/core/event_loop.cpp:440-503 | Any other path gets 404, 403, the listing, or 304 without body, type and length, by what the file system says; HEAD gets the same header without the body; Connection says what the client asked for. |
| Answers.RangeIsSeen | src/core/event_loop.cpp:505-540 | For a header that spells a range which selects any position: status 206, one Content-Range that reads as first position, last position and size of exactly the selection, its length, those bytes of the file, and asking for it again gives it again; for one that selects none, 200 and the whole file. |
| Answers.NoRangeIsSeen | src/core/event_loop.cpp:505-540 | Without a Range header, or with one that spells no range, 200 and the whole file. |
| Answers.AnswerIsFitting | src/core/event_loop.cpp:400-541 | For every request and lookup, what the client sees of the answer is what these tables say. |
| Answers.PersistsIff | src/http/http_request.cpp:113-120 | The connection is kept unless an HTTP/1.1 request's first Connection header is `close`, and in other versions only when it is `keep-alive`. |
| Client.HeaderBlockEnd | src/http/http_response.cpp:121-180 | The serialised headers end with their only CRLFCRLF. |
| Client.LengthInResponse | src/http/http_response.cpp:145-150 | The first Content-Length a client finds is the one that was set. |
| Client.StatusReadBack | src/http/http_response.cpp:126-131 | The characters at the place of the status code are the decimal digits of the code set, and read as 304 exactly for NOT_MODIFIED. |
| Client.DeframeTakes | src/http/http_response.cpp:121-180 | Whatever follows the header block, a client takes as many bytes as it believes were announced, and fails when there are fewer. |
| Client.DeframeResponse | src/http/http_response.cpp:121-180 | Cutting at the first CRLFCRLF and taking Content-Length bytes recovers the body and finds the next response right behind it (section 6.3 of RFC 9112). |
| Stream.WakeupAccounts | src/core/event_loop.cpp:291-385 | Conservation for one wakeup in any state: what was owed and what it starts is on the wire or owed afterwards; a connection that closes has sent a prefix. |
| Stream.ChainAccounts | src/core/event_loop.cpp:291-385 | Conservation over any chain of wakeups: nothing started is lost, repeated or reordered. |
| Session.CleanStream | src/core/connection.cpp:353-589 | The stream of a chain without header pieces and left-over files is the messages of the responses told, each framed. |
| Session.MessagesDeframe | src/http/http_response.cpp:121-180 | Any sequence of framed messages is read as exactly their bodies if and only if the client has one note for each and each suits: the flag the server went by, or a response without a body. |
| Session.RepliesAnswer | src/core/event_loop.cpp:400-541 | Every response told answers its request text: its HEAD flag is the method of a text that parses, and a page with a body answers anything else. |
| Session.NotesOfMethods | src/core/connection.cpp:305-321 | A client that notes the methods of requests that parse is right if and only if it asked HEAD with none of those that do not. |
| Session.SessionRecovered | src/core/connection.cpp:353-589 | Over any chain of wakeups that starts between responses, with refused and partial reads, idle wakeups, malformed requests and error pages inside, the wire is a prefix of the messages told, and between responses a client, with any notes of where it asked HEAD, recovers exactly the bodies in order with nothing left over if and only if the notes suit. |
| Serving.RejectedPathTold | src/core/event_loop.cpp:439-482 | Over wakeups: a complete GET or HEAD for a rejected path is told 400, or nothing while it is started over, and takes no file. |
| Serving.RangeTold | src/core/event_loop.cpp:505-540 | Over wakeups: a complete GET or HEAD with a range is told the part selected, as the client reads it. |
| Serving.OtherMethodIgnored | src/core/event_loop.cpp:342-373 | Over wakeups: a complete request with any other method puts nothing on the wire, tells nothing, takes no file, waits for nothing and stays in PARSING. |
| Serving.PrintedOtherMethod | src/http/http_request.cpp:40-45 | Every printed request with a method word other than GET and HEAD is such a request. |
| Serving.IgnoredForGood | src/core/event_loop.cpp:342-373 | And so it remains over any chain of wakeups. |
| Serving.MalformedTold | src/core/connection.cpp:305-321 | A complete text that does not parse is told 400 with its page, and that the connection closes. |
| Serving.FirstByteDecides | src/core/connection.cpp:137-176 | The first byte 22, and only that, starts a TLS handshake in the same wakeup; without TLS it is told 400 with a note; any other byte is left to be read as a request. |
| Serving.HandshakeTold | src/core/connection.cpp:192-222 | A handshake ends in READING, waits in the direction it asks for, or is told 500. |
| Misreadings.BareHeadMisread | src/http/http_request.cpp:29-32 | `HEAD / HTTP/1.0` without headers, read whole, is answered with a page and its body; a client that noted HEAD is misframed. |
| Misreadings.CutHeadMisread | src/core/event_loop.cpp:325-329 | A HEAD request cut in two between responses is answered with such a page for its second half. |
| Misreadings.WholeParses | src/http/http_request.cpp:19-83 | In one piece the same request parses as HEAD. |
| Exchanges.WakeupsServe | src/core/event_loop.cpp:291-385 | However an exchange is spread over wakeups, each meeting its own lookup and date, it is the run of their attempts. |
| Exchanges.ExchangeIntactIff | src/core/event_loop.cpp:291-385 | From the read that completes a request, whatever lookups and dates the wakeups meet: exactly what a completed exchange put on the wire, and that it is one intact message if and only if no header was started over and no left-over file stands in for a page. |
| Exchanges.StaleFileSent | src/core/event_loop.cpp:439-482 | A file found, the header write refused, the file gone: the header of the 404 page goes out with the old file behind it. |
| Exchanges.TornHeaderSent | src/core/event_loop.cpp:313-315 | One byte of a header taken, then a whole header: the byte stays in front of the response. |
| Exchanges.IdleChain | src/core/event_loop.cpp:325-329 | Between responses, reads without a terminator start nothing and leave nothing. |
| Exchanges.CutBetweenResponses | src/core/event_loop.cpp:325-329 | Between responses the request answered is the text of the one read that first holds a terminator. |
| Exchanges.ReplyCloses | src/core/event_loop.cpp:363-373 | A complete request in one read and a failing header write: the inline reply closes the connection in the wakeup that read it. |
| HttpRequest.HttpRequest.Parse | src/http/http_request.cpp:19-83 | The object after parsing, or after the failure, is `ParseText` of the raw text; `RequestProperties.dfy` says which texts that accepts and what it reads in them. |
| HttpRequest.HttpRequest.Header | src/http/http_request.cpp:96-102 | The scan is `HeaderValue`. |
| HttpRequest.HeaderValue | src/http/http_request.cpp:96-102 | The value of the first header with the name, empty when there is none. |
| HttpRequest.HttpRequest.ParseRange | src/http/http_request.cpp:135-187 | The digit loops and bounds are `ByteRange.ParseRange` of the header value. |
| HttpRequest.ReadDigits | src/http/http_request.cpp:168-178 | The accumulating loop yields the number denoted, or fails at a non-digit. |
| HttpRequest.ParseIgnoresTail | src/http/http_request.cpp:23-27 | Nothing after the first CRLFCRLF changes the result. |
| HttpRequest.ParsePrinted | src/http/http_request.cpp:19-83 | Parsing undoes printing, whatever follows: the three request-line fields and all header lines but the last come back, names in lower case; the verb is GET for the word "GET", HEAD for "HEAD", and unknown for any other. |
| RequestProperties.VerbMeaning | src/http/http_request.cpp:38-45 | For every text that parses, the verb is GET if and only if the method word is "GET", HEAD if and only if it is "HEAD", and otherwise unknown. |
| RequestProperties.AcceptedIff | src/http/http_request.cpp:19-54 | A text is a request with given three words if and only if its first line is these words with single blanks between, more lines follow, and an empty line ends them. |
| RequestProperties.HeaderOfCut | src/http/http_request.cpp:64-79 | A header line is cut at its first ": ", else at its first colon; blanks and tabs behind it are dropped. |
| RequestProperties.HeadersOfLines | src/http/http_request.cpp:56-80 | All lines but the last, which lacks its line break, are read in order; a line without colon holds no header. |
| RequestProperties.Lowering | src/http/http_request.cpp:75-77 | The 26 capitals of a name become the small letters in their places, and nothing else changes. |
| HttpRequest.RequestWithoutHeadersRejected | src/http/http_request.cpp:29-32 | A request without header lines is rejected. |
| HttpResponse.HttpResponse.BuildHeaders | src/http/http_response.cpp:121-180 | The appended text is the joined header lines and the empty one. |
| HttpResponse.HttpResponse.SetContentLength | src/http/http_response.cpp:92-96 | Sets the length and its flag, nothing else. |
| HttpResponse.HttpResponse.Reset | src/http/http_response.cpp:183-195 | All fields are back to those of a fresh response. |
| ByteRange.ResolveIsSelection | src/http/http_request.cpp:155-186 | The interval is the set of byte positions section 14.1.2 of RFC 9110 selects, and there is none exactly when that set is empty. |
| ByteRange.SyntaxOfPrinted | src/http/http_request.cpp:142-179 | A range printed in decimal is read back as itself. |
| ByteRange.SyntaxIffSpelled | src/http/http_request.cpp:142-179 | A header value is read as a range if and only if it is `bytes=`, digits, '-' and digits, with either side empty. |
| ByteRange.ParsePrintedRange | src/http/http_request.cpp:135-187 | A printed range yields what section 14.1.2 of RFC 9110 says, and nothing exactly when nothing is selected. |
| ByteRange.ParsedIntervalInFile | src/http/http_request.cpp:181-186 | Every interval returned has 0 <= start <= end < size and is the selection of the range that was read. |
| ByteRange.ReportedIntervalIsStable | src/core/event_loop.cpp:510-519 | A client that reads the Content-Range value finds the interval and the size of the file, and asking for that interval returns it again. |
| ByteRange.Reassembly | src/http/http_request.cpp:135-187 | The pieces of k bytes, for any k > 0, fetched in order are the whole file, the last one clamped. |
| FileServer.Normalize | src/server/file_server.cpp:50-109 | The loops compute `NormalizedText`, described by `PathProperties.NormalizeMeaning` and `EscapeProperties.EscapeMeans`; the nested scan ends because `start` grows. |
| FileServer.PercentDecode | src/server/file_server.cpp:52-67 | The decoding loop is `Decode`, with `strtol`'s blanks and signs; `EscapeProperties.dfy` says what that is for every text. |
| FileServer.ResolveSegments | src/server/file_server.cpp:74-93 | The scan over the text is the stack walk over its segments. |
| PathProperties.WalkIsReference | src/server/file_server.cpp:74-93 | The stack walk fails exactly on paths some prefix of which has more ".." than ordinary segments, and otherwise keeps exactly the uncancelled segments. |
| PathProperties.NormalizeMeaning | src/server/file_server.cpp:50-109 | Rejection exactly for a forbidden control character, a climb above the root, or a surviving dot-led segment; otherwise the join of the survivors, in canonical form. |
| PathProperties.UrlEncodePath | src/server/file_server.cpp:255-272 | The loop is `EncodedText`. |
| PathProperties.DecodeEncode | src/server/file_server.cpp:255-272 | Percent-decoding undoes the encoder. |
| EscapeProperties.EscapeMeans | src/server/file_server.cpp:55-66 | For every two characters behind a '%': if they are the two hexadecimal digits of an octet other than 0, each in either case, or one digit behind a blank or '+', they are that octet; otherwise the '%' stays. |
| EscapeProperties.EitherCase | src/server/file_server.cpp:56-64 | Any octet but 0 written as two digits, each in either case, is decoded to that octet. |
| EscapeProperties.DecodeUndoes | src/server/file_server.cpp:52-67 | Decoding undoes every encoder that escapes any set of characters with '%' among them, with digits in any case. |
| EscapeProperties.PlainTextStays | src/server/file_server.cpp:52-67 | Text without '%' is left alone. |
| EscapeProperties.EncoderWrites | src/server/file_server.cpp:255-272 | The encoder keeps letters, digits and `-._~/` and writes everything else as '%' and two digits in capitals. |
| PathProperties.EncodeThenNormalize | src/server/file_server.cpp:50-109 | For every canonical path q, normalize(url_encode_path(q)) = q. |
| PathProperties.NormalizeTwice | src/server/file_server.cpp:50-109 | A result is a fixed point of normalize if and only if no escape is left in it to decode. |
| PathProperties.NormalizeNotIdempotent | src/server/file_server.cpp:52-67 | A doubly encoded path is decoded once per call. |
| PathProperties.RootHrefLeadsToEntry | src/server/file_server.cpp:400-409 | For any request path that normalises to the root, the link of a listed name normalises to that name if and only if the name holds no forbidden control character. |
| PathProperties.WithinRootIsComponentwise | src/server/file_server.cpp:120-128 | The prefix test holds if and only if the root's components lead the resolved path's. |

## Left out

- One event per `kevent` return: the batch loop of `run` does not recheck whether an earlier event of the same batch destroyed a connection, so its claims are made for one event at a time.
- TLS contents: a TLS object is always available once TLS is detected, and SSL is a flag on the connection.
- Signals, EINTR beyond "no event", `fcntl`, `setsockopt`, logging, the command line, and the destructor.
- Directory pages, MIME types, dates and the If-Modified-Since comparison: opaque results of `Lookup`; Date and Last-Modified are single-line texts.
- The file system (`lstat`, `realpath`, `index.html`, sorting of entries): `Lookup` gives contents or an error, and the file does not change while it is sent.
- Integer width: offsets, sizes and digits are unbounded, so overflow of `off_t` and `long` by long digit strings is not modelled.
- Fields nothing reads (`headers_complete_`, `file_size_`, `root_dir_`, `keep_alive_timeout_` of a connection) are absent; the response object is kept as its header text and body; the sending fields of a connection are grouped in one record.
- The listening descriptor is given when the loop is built, not when the listener is added.
- EventLoop.EventLoop.ProcessConnection: a connection closed by the inline reply keeps its slot for good, as in the source (src/core/event_loop.cpp:363-384); the contract says exactly when, and `Leaks.StrandsSlot` gives a run.
- EventLoop.EventLoop.PrepareResponse: when a response is built a second time the file of the first attempt is not closed, as in the source; `FileLost` says exactly when its descriptor is lost, and `Leaks.LosesFile` gives a run.
- Session.SessionRecovered: leaves out chains in which a header write takes a part of the header, or in which a file of an earlier attempt stands in for a page, for then the source sends something else; `SendingRuns.IntactIff` and `Exchanges.ExchangeIntactIff` show that in no others a completed response is not intact, and `Exchanges.TornHeaderSent` and `Exchanges.StaleFileSent` give one of each. An intact response can still be misread: the source answers a request that does not parse with a body even when HEAD was asked. The theorem says exactly when, and `Misreadings.dfy` gives inputs.
- HttpRequest.ParsePrinted: the last header line is not recovered, because the source stops at a line without CRLF inside the block.
- `Connection: close` is reported in the response but does not close the socket, as in the source; and a request with a method other than GET or HEAD is never answered, which `Serving.IgnoredForGood` proves, although `prepare_response` has a 501 page for it.
- Relative links of listings below the root and the parent link.
