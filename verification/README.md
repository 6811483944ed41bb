# Dracon: a verified model of the server core

Dracon is an HTTP/1.x server. This project models the parts of it which carry hard properties, and
proves those properties for all inputs, all runs and all interleavings:

- **The request parser and the connection driver.** The resumable parser is a pure machine
  (`HttpMachine`) and a class with the fields and loops of the original (`HttpParser`,
  `HttpSession`), whose methods are proved to compute the machine. `Fragmentation`, `Driver` and
  `Requests` prove that the way a byte stream is cut into reads is invisible, `Connection` that the
  boundary between two requests is never lost, `HeadSyntax` and `HeadRoundTrip` what ends up in the
  header map, which byte strings are accepted as a head and what they announce, `ChunkGrammar` which
  are decoded as a chunked body, `Refusals` what the others are answered with, `Limits` the bounds of
  every call, and `BodyAccount` the arithmetic of a body over everything a handler may do with it.
  `Messages` puts these together: the byte strings taken for a message are exactly those of a grammar,
  and they are served as exactly these requests. `IoLoop` connects the two views of the request loop.
- **The output path.** `Output` has the partial-write loops, `OutStreams` the chunked stream and the
  stream buffer on top of them, `ChunkedCodec` the proof that the decoder undoes the framing,
  `Truncation` what a body looks like whose writer failed, and `EndToEnd` the composition of all of
  them.
- **The event loop.** `EventLoop` is a transition system with one action for every atomic step of
  the loop thread, of the accepting thread and of threads with a wakeupper; `EventLoopSafety` proves
  what every interleaving keeps, and `EventLoopRuns` has the runs which show where its promises end.
- **Supporting structures.** `Lru`, `Query`, `Router`, `Response` and `Accounting`, and `Scanning` with
  what the scanning helpers make of lines and lists.

Code which updates fields or runs loops is modelled by classes and methods, each proved against a
function of its inputs or of its old state; the laws are then lemmas about those functions. The
event loop and the connection accounting are shared by several threads, so they are transition
systems over their steps instead.

A byte is a `char`, a byte string a `string`. What the socket does is a parameter: a list of reads
for the receiving side, and a list of write results for the sending side, whose end stands for a
session which is never resumed again. A wait which ends in an error fails one write and leaves the
socket as it was. The clock and the choice of the next event are actions of the
transition system.

## What turned out to hold only under a condition

- A chunk-size line of more than 1024 bytes, or a trailer line of more than 8192, is refused only
  while it is incomplete. Reading a body is independent of the cuts exactly when the body has no
  such line or is refused anyway (`Driver.FragmentationExact`); `ChunkedCodec.LongLineDependsOnCuts`
  has an input.
- The request boundary is lost on some connection exactly when a handler swallows the error of a
  refused read, reads again, and turns keep-alive back on before it returns (`Connection.BoundaryIff`);
  `Connection.RiskyBreaks` has the connection.
- The limit check of a body of known length subtracts the bytes received from the limit. It wraps
  around in some call of the parser exactly for handlers which read, swallow the error, and read again
  under a non-zero limit smaller than what the first read may have received (`BodyAccount.WrapIff`), for
  instance by registering a callback with a limit only after a failed read
  (`BodyAccount.ShortestProne`, `BodyAccount.WrapsOnConnection`). The check then passes, but every
  delivery is checked again, so nothing beyond the limit is ever delivered
  (`BodyAccount.NeverOverLimit`).
- What was received equals what was delivered, and is missing from the announced length, at every read
  of every connection, exactly for handlers which read once, or always with a callback and without a
  limit (`BodyAccount.BalanceIff`): bytes which are refused are counted as received.
- A vectored write whose first 1024 buffers are all empty offers nothing to a plain socket, so it
  never finishes although bytes are pending. `Output.Session.WriteBuffers` says exactly when.
- The terminating chunk is written by a destructor, so it also follows a write which failed, and the
  socket may take it. The bytes sent are then still the beginning of a body exactly if the write failed
  between two chunks, nothing of the terminating chunk went out, or it reads as a continuation of the
  chunk it interrupts (`Truncation.BeginsIff`); `EndToEnd.InterruptedWrite` has a run in which they are
  not. They look like a complete, shorter body exactly if the write failed between two chunks and the
  whole terminating chunk went out (`Truncation.LooksComplete`).
- Sessions are safe from use after destruction as long as epoll calls succeed. If the accepting
  thread is held up between inserting a session and giving it to epoll until the deadline of the
  session passes, removing it from epoll fails (`EventLoopRuns.StalledRegistration`), and whenever
  that fails the loop can go on to destroy the session under that thread
  (`EventLoopRuns.FailedRemovalKills`).
- The loop keeps the deadlines of all sessions it has resumed (`EventLoopSafety.NoLostDeadline`), and
  publishes those of the others (`EventLoopSafety.FirstDeadlineKept`), unless a scan passes a session
  while it is being built. Then its first deadline is lost until the stream is made
  (`EventLoopRuns.FirstDeadlineLost`), which for a TLS session is only after its handshake: the loop
  waits past the deadline of a session it has already resumed
  (`EventLoopRuns.HandshakeDeadlineLost`).
- A client which reads a response finds its status, its fields, its framing, its connection options and
  its body as they were set, exactly if no field name has a colon behind one of the four computed names:
  a field "Content-Length:5" would be read as one more Content-Length (`Response.PromiseIff`).
- A list of query pairs comes back from its text if and only if no key is empty
  (`Query.QueryRoundTrip`); without a key the value takes its place, and "=" alone is an error
  (`Query.PairParsed`).
- With a limit of zero connections every address which connects leaves an entry of zero
  (`Accounting.ZeroLimitLeavesEntries`).

## Where the code and its comments differ

The model follows the code.

- The comment on `fields` in `include/dracon/http.h` says that a repeated header keeps its last
  value. The parser joins the values with ", " and keeps the first text of Content-Length.
- The comment on route equality in `include/dracon/restful.h` says that capture names do not matter.
  The code compares them, so "items/{id}" and "items/{item}" are two routes.
- An unknown status code of 100 to 199 is sent with the status line of a 500, but without a body and
  without framing and connection headers.

## Model

| member | source | states |
|---|---|---|
| HttpParser.TrimOwsOf | src/server/http_parser.h:84-91 | the two loops strip exactly the surrounding spaces and tabs |
| HttpParser.TokensOf | src/server/http_parser.h:93-105 | the loop visits the non-empty trimmed pieces between commas, in order |
| HttpParser.CanonicalName | src/server/http_parser.h:107-118 | the loop computes the canonical spelling of a name |
| HttpParser.ReadChunkSize | src/server/http_parser.h:448-460 | the digit loop yields the size of a chunk-size line, or none for what the code rejects |
| HttpParser.SkipEmptyLines | src/server/http_parser.h:257-270 | the loop stops at the first non-empty line, and the machine gets to the same place |
| HttpParser.HttpRequestParser.BeginRequest | src/server/http_parser.h:232-240 | the parser starts the request from the initial state, whatever it did before |
| HttpParser.HttpRequestParser.ParseRequestLine | src/server/http_parser.h:301-327 | method, target and version are taken, or the status the machine gives is thrown |
| HttpParser.HttpRequestParser.ParseHeaderField | src/server/http_parser.h:329-385 | one field line has the effect of the machine on flags, map and field count, errors included; HeadRoundTrip.HeadIff says which lines these are |
| HttpParser.HttpRequestParser.FinalizeHead | src/server/http_parser.h:387-407 | the body framing and keep-alive are decided as by the machine |
| HttpParser.HttpRequestParser.ParseHead | src/server/http_parser.h:242-299 | consumed bytes, new state or rejection are those of the line machine on the same data |
| HttpParser.HttpRequestParser.Deliver | src/server/http_parser.h:516-522 | the bytes are counted, checked against the limit and handed to the callback |
| HttpParser.HttpRequestParser.ParseChunked | src/server/http_parser.h:433-514 | the loop consumes what the chunk machine consumes and ends in its state or rejection; ChunkGrammar.CompleteIff says which bodies complete |
| HttpParser.HttpRequestParser.ParseBody | src/server/http_parser.h:409-431 | the call computes the body machine for both framings |
| HttpMachine.StepChunk | src/server/http_parser.h:438-512 | every step of the chunk decoder waits, rejects, or advances by at least one byte and keeps "in data means bytes remain" |
| HttpSession.Session.ReadLoop | src/server/streams.cpp:58-109 | the loop over pending bytes and socket reads ends as the driver function says, for every list of reads |
| HttpSession.Session.ReadHeaders | src/server/streams.cpp:305-343 | a new request object is filled by the head loop |
| HttpSession.Session.Read | src/server/streams.cpp:58-109 | a completed request is left alone; any failure ends keep-alive |
| HttpSession.Session.RunHandler | src/server/streams.cpp:267 | a handler's reads, registrations and errors change session and request as the handler model says |
| HttpSession.Session.ServeOne | src/server/streams.cpp:253-276 | one round of the loop goes on to the next request exactly when the connection model does, and from the same place |
| HttpSession.Session.IoLoop | src/server/streams.cpp:249-276 | the loop gets through its handlers exactly when the connection model does, and ends at the same place |
| Fragmentation.HeadSplit | src/server/http_parser.h:242-299 | parsing two pieces of a head one after the other equals parsing them together |
| Fragmentation.ChunkedSplit | src/server/http_parser.h:433-514 | the same for chunked bodies with short lines |
| Fragmentation.LengthSplit | src/server/http_parser.h:421-430 | the same for bodies of known length |
| Fragmentation.BodySplit | src/server/http_parser.h:409-514 | the same for every body |
| Fragmentation.CutIsVisible | src/server/http_parser.h:443-447 | a body with an overlong line has a prefix which is rejected on its own |
| Driver.DriveSound | src/server/streams.cpp:58-109 | whatever the loop ends with, one parser call on the bytes consumed agrees |
| Driver.DriveComplete | src/server/streams.cpp:58-109 | the loop does not stop before it has to: it accepts or refuses as soon as one call on the arrived bytes would |
| Driver.FragmentationIndependence | src/server/streams.cpp:58-109 | for every cut of every stream the driver agrees with one whole read: same request and same unread bytes, both refused, or both waiting |
| Driver.FragmentationExact | src/server/http_parser.h:443-447 | all cuts of a body agree if and only if it has no overlong line or is refused anyway |
| Driver.VisibleCut | src/server/http_parser.h:443-447 | a body with an overlong line has a cut which gets it refused |
| ChunkedCodec.CutsInvisibleIff | src/server/http_parser.h:443-447 | the cuts of a chunked body of the grammar are invisible if and only if no size line has more than 1024 and no trailer line more than 8192 bytes before its LF |
| ChunkedCodec.LongLineDependsOnCuts | src/server/http_parser.h:443-447 | a last chunk with an extension of more than 1024 bytes is accepted whole, and not for all cuts |
| Requests.DriveIsParse | src/server/streams.cpp:305-343 | the loops do what one parser call does with all bytes |
| Requests.ServedIsWhole | src/server/streams.cpp:249-276 | a whole connection answers the same requests, with the same bodies, and stops at the same place as a parser with all bytes at hand |
| Requests.SameRequests | src/server/streams.cpp:249-276 | two connections with the same bytes serve the same requests, however the bytes were cut |
| IoLoop.PolicyIsHandler | src/server/streams.cpp:249-276 | the requests served by a policy are those of handlers which follow it, turn by turn |
| Messages.MessagesServed | src/server/streams.cpp:249-276 | requests written by the grammar one after the other, with either line end, empty lines in front, length or chunked bodies, extensions and trailers, are served as exactly these requests and bodies over every fragmentation |
| Messages.MessageEndsThere | src/server/http_parser.h:242-514 | a message by the grammar ends where the parser ends it |
| Messages.MessageIff | src/server/http_parser.h:242-514 | a byte string starts with a message for the server, ending at a place, if and only if it is a message of the grammar followed by the rest |
| Connection.BoundaryExact | src/server/streams.cpp:249-276 | for every handler which is not risky the next head starts exactly at the end of the message |
| Connection.RiskyBreaks | src/server/streams.cpp:58-109 | for every risky handler there is a connection on which the next head starts inside a message |
| Connection.BoundaryIff | src/server/streams.cpp:249-276 | a handler keeps the boundaries on all connections if and only if it is not risky |
| Connection.ConnectionBoundaries | src/server/streams.cpp:249-276 | after any number of requests the unread bytes are those after that many messages of the stream |
| HeadSyntax.CanonicalIff | src/server/http_parser.h:107-118 | two names share a canonical form if and only if they are equal ignoring case |
| HeadSyntax.CanonicalIdempotent | src/server/http_parser.h:107-118 | canonicalizing twice changes nothing |
| HeadSyntax.MapEntry | src/server/http_parser.h:380-384 | storing field by field gives each name the join of its values in order, Content-Length its first |
| HeadSyntax.HeaderMap | src/server/http_parser.h:329-385 | after any accepted head every entry is the combination of what was sent under its name, and request and parser agree on the length |
| HeadRoundTrip.HeadRoundTrip | src/server/http_parser.h:242-299 | a written head within the limits is accepted if and only if its framing fields are consistent, and then gives exactly what it announces: method, target, fields, kind and length of the body, state and keep-alive |
| HeadRoundTrip.HeadWritten | src/server/http_parser.h:242-385 | what is accepted as a head was written as one: empty lines, a request line with a token method, a printable target and version 1.x, field lines with token names and value characters, an empty line, each ended by LF or CRLF, within the limits and consistent |
| HeadRoundTrip.HeadIff | src/server/http_parser.h:242-407 | over all byte strings: acceptance with this result if and only if such a head announces it |
| HeadRoundTrip.AcceptedIff | src/server/http_parser.h:347-385 | a list of fields is accepted if and only if lengths agree and there is at most one transfer coding, chunked |
| Limits.HeadBounds | src/server/http_parser.h:260-298 | consumed head bytes are counted, an accepted head has at most 8192, a waiting one leaves at most as many, fields stay within 100 |
| Limits.ChunkedBounds | src/server/http_parser.h:433-514 | what a chunked call leaves is a suffix of its input within the bound of its state |
| Limits.BodyBounds | src/server/http_parser.h:409-514 | an incomplete body leaves at most 1024, 8192, 1 or 0 bytes, by state |
| Limits.DriveBacklog | src/server/streams.cpp:58-109 | whatever arrives in whatever portions, what a loop has left over whenever it waits or breaks off is within the bound of its state, for heads and bodies |
| Limits.DriveConserves | src/server/streams.cpp:58-109 | however a loop ends, the bytes it has not consumed are still there, but for those of a single read which was rejected with nothing pending |
| Limits.ChunkSizeFits | src/server/http_parser.h:448-460 | every accepted chunk size fits into 64 bits |
| Limits.HeadAccounted | src/server/http_parser.h:387-407 | an accepted head starts the body account, whatever limit is registered afterwards |
| Limits.DriveAccounted | src/server/http_parser.h:409-522 | a read which is not refused, under a limit not yet exceeded, keeps received equal to delivered, the announced length and the limit |
| Limits.LimitNeverWraps | src/server/http_parser.h:421-422 | while the account holds the unsigned subtraction does not wrap and the check is exact |
| BodyAccount.NeverOverLimit | src/server/http_parser.h:516-522 | over every list of actions of a handler, refused and swallowed reads included, no more is delivered than received, and no action delivers beyond the limit in force when it does |
| BodyAccount.WrapIff | src/server/http_parser.h:421-422 | some call of the parser on some connection checks with a subtraction which wraps, if and only if the handler reads again, after a swallowed read, under a smaller non-zero limit |
| BodyAccount.WrapsOnConnection | src/server/http_parser.h:421-422 | for each such handler a connection with a real head on which a call makes the check and it wraps |
| BodyAccount.DriveParses | src/server/streams.cpp:58-109 | however a read ends, it is the list of its calls of the parser |
| BodyAccount.ShortestProne | include/dracon/http.h:446-450 | registering a limit after a swallowed read, or lowering it, is enough |
| BodyAccount.WrappedCheckPasses | src/server/http_parser.h:421-422 | a check which wraps lets a body through which is over the limit |
| BodyAccount.BalanceIff | src/server/http_parser.h:516-522 | the account is balanced at every read on every connection if and only if the handler never reads again unless always with a callback and without a limit |
| BodyAccount.HandlerStarts | src/server/streams.cpp:254-268 | every handler starts with an untouched body account |
| Output.Session.WriteSome | src/server/streams.cpp:371-387 | one write takes a prefix, blocks and is resumed, or fails, once or for good, as the socket decides |
| Output.Session.Write | src/server/streams.cpp:111-126 | what is sent is a prefix of the buffer, all of it exactly on return, as the write function of the script says, and enough progress leads to a return |
| Output.Session.FlatBuffer | src/server/streams.cpp:518-527 | the TLS copy is the prefix of the pending bytes which fits the socket's buffer |
| Output.Session.WriteSomeBuffers | src/server/streams.cpp:394-412 | one vectored write sends as much of what it offers as the socket takes, a prefix of what is pending |
| Output.Session.DropWritten | src/server/streams.cpp:154-163 | dropping and shortening descriptors leaves what is behind the bytes written |
| Output.DropBytes | src/server/streams.cpp:154-163 | what is left are exactly the bytes not written, and no empty descriptor is in front |
| Output.Session.WriteBuffers | src/server/streams.cpp:128-165 | what is sent is a prefix of the concatenation, all of it exactly on return, as the write function of the script says; it returns given enough progress if and only if it is not stuck; the caller's array is outside its frame |
| Output.TotalOf | src/server/streams.cpp:130-132 | the loop sums the lengths of all buffers |
| Output.OfferIsPrefix | src/server/streams.cpp:505-529 | what is offered is a prefix of what is pending, and empty if and only if the buffers are stuck |
| ChunkedCodec.SizeParses | include/dracon/stream.h:394-402 | the decoder reads the size text of a chunk header back as the size |
| ChunkedCodec.EncodeIsBody | include/dracon/stream.h:368-391 | everything a chunked stream sends is a chunked body of the grammar which carries what was written |
| ChunkedCodec.ChunkedRoundTrip | src/server/http_parser.h:433-514 | it is decoded to what was written over every fragmentation: the request completes and the bytes which follow stay unread |
| ChunkedCodec.BodyRoundTrip | src/server/http_parser.h:433-514 | the same for every chunked body of the grammar without overlong lines |
| ChunkGrammar.SizeRead | src/server/http_parser.h:438-468 | digits of either case, whitespace and an extension are read as the size |
| ChunkGrammar.SizeWritten | src/server/http_parser.h:448-464 | a line which is read as a size was written so, with at most 16 digits |
| ChunkGrammar.BodyDecodes | src/server/http_parser.h:433-514 | chunks with either line end, a last chunk, trailer lines within the header budget and an empty line are decoded to the payload; exactly the rest is left |
| ChunkGrammar.BodyWritten | src/server/http_parser.h:433-514 | what the decoder takes for a complete body was written as one, and is within the budget and the limit |
| ChunkGrammar.CompleteIff | src/server/http_parser.h:433-514 | over all byte strings: a body completes with this result if and only if it is such a text |
| Refusals.RequestLineStatus | src/server/http_parser.h:301-323 | a bad request line is answered with 505 if and only if only its major version is wrong, else with 400 |
| Refusals.FieldStatus | src/server/http_parser.h:277-407 | a refused line of the head is answered with 431 if it is over a limit, with 501 if chunked is the last of several codings, else with 400 |
| Refusals.ChunkStatus | src/server/http_parser.h:433-522 | a refused step of the chunk decoder is answered with 413 for the limit, 431 for trailers, else with 400 |
| Refusals.LengthStatus | src/server/http_parser.h:409-431 | a refused body of known length is answered with 413 if it does not fit, with 400 if nobody reads it |
| Scanning.TrimOf | src/server/http_parser.h:84-91 | whitespace around a trimmed text is dropped, and nothing of the text |
| Scanning.TrimSplit | src/server/http_parser.h:84-91 | every text is its trimmed text with whitespace around it |
| Scanning.TokensOfList | src/server/http_parser.h:93-105 | the tokens of a comma separated list are its non-empty elements without the whitespace around them |
| Scanning.LineOf | src/server/http_parser.h:126-140 | a line is found as it was written, with either end |
| OutStreams.OutStream.constructor | include/dracon/stream.h:356-358 | a stream starts with an empty log on top of what was sent before |
| OutStreams.OutStream.Write | include/dracon/stream.h:368-375 | a scalar write adds one piece to the log and the session has sent the framing of the log, or it halted inside that piece; enough progress of the socket makes it succeed |
| OutStreams.OutStream.WriteBuffers | include/dracon/stream.h:377-391 | the same for a vectored write, whose concatenation is one piece; a chunk is never stuck |
| OutStreams.OutStream.SendChunk | include/dracon/stream.h:377-391 | header, data and line end are the frame of the data |
| OutStreams.OutStream.End | include/dracon/stream.h:360-365 | the terminating chunk follows whatever was sent, also after a write which failed; behind complete chunks it completes the body of the log |
| OutStreams.OstreamBuffer.constructor | include/dracon/stream.h:434-439 | the buffer starts empty with a capacity of at least 4096 |
| OutStreams.OstreamBuffer.Sync | include/dracon/stream.h:454-463 | what went downstream followed by the buffer is unchanged and the buffer is empty, or the stream halted inside what was put; an empty buffer writes nothing, whatever happened before; enough progress makes it succeed |
| OutStreams.OstreamBuffer.Overflow | include/dracon/stream.h:465-473 | one character is appended to all bytes put so far, within the capacity; after a failure the buffer is empty |
| OutStreams.OstreamBuffer.Xsputn | include/dracon/stream.h:475-502 | the bytes are appended in order, the full count is returned, the capacity is kept, and the loop ends; after a failure the buffer is empty |
| OutStreams.OstreamBuffer.PutLarge | include/dracon/stream.h:481-492 | more than the capacity goes out at once behind what was buffered |
| EndToEnd.Respond | include/dracon/stream.h:332-402 | any sequence of scalar, vectored and buffered writes and the destructors behind it send one chunked body which carries them, or complete chunks of it, a part of one more and a part of the terminating chunk; it succeeds if the socket makes progress often enough |
| EndToEnd.InterruptedWrite | src/server/streams.cpp:144-151 | a run in which the wait of a write fails and the socket takes the terminating chunk: what is sent is not the beginning of any chunked body of what was written |
| Truncation.BeginsIff | include/dracon/stream.h:360-365 | a body which broke off is still the beginning of a body if and only if the write failed between chunks, nothing of the terminating chunk went out, or it reads on in the chunk it interrupts |
| Truncation.LooksComplete | include/dracon/stream.h:350-365 | it looks complete if and only if the write failed between chunks and the whole terminating chunk went out, and then shows exactly the chunks before, less than the body |
| Truncation.Strip | include/dracon/stream.h:368-375 | the chunks of a body can be told apart: two bodies with the same beginning have the same chunks in it |
| EndToEnd.BodyArrives | src/server/http_parser.h:433-514 | such a body, cut in any way, is delivered as exactly the bytes written, completes, and leaves the rest |
| EventLoopSafety.RunKeepsSafe | src/server/sessions_event_loop.cpp:264-362 | every interleaving keeps the invariants on wakeups, lifetimes and deadlines |
| EventLoopSafety.NoLostWakeup | src/server/sessions_event_loop.cpp:196-207 | a queued wakeup whose writer is done has an event to be reported or a loop about to take the queue |
| EventLoopSafety.NobodySleepsThroughAWakeup | src/server/sessions_event_loop.cpp:303-323 | when the loop sleeps and no waker is on its way, every registered session which was asked to run has run since |
| EventLoopSafety.NothingDeadInHand | src/server/sessions_event_loop.cpp:160-194 | every session a thread is about to use is alive, registered and doomed sessions are disjoint, and none is destroyed twice, with addresses used again |
| EventLoopSafety.NoLostDeadline | src/server/sessions_event_loop.cpp:328-353 | when the loop waits, the published deadline and its wait are at most every deadline of a registered session it has resumed, unless a scan passed the session while it was being built and its stream is not made yet; it waits forever only if there is none |
| EventLoopSafety.StreamIsSafe | src/server/server_session.h:194-206 | a session which has its stream is never one of these exceptions |
| EventLoopSafety.FirstDeadlineKept | src/server/server_session.h:69-73 | every registered session without a stream has a first deadline, and it is published, unless a scan passed the session while it was being built |
| EventLoopSafety.TimedOutIff | src/server/sessions_event_loop.cpp:337-344 | the scan times a session out if and only if it has a deadline which is not later than the clock read, which is not later than now |
| EventLoopSafety.NoTimeoutMissed | src/server/sessions_event_loop.cpp:331-348 | when a scan ends, every session of its copy which it called is going to be deleted and no longer registered, every other one has no deadline or one after the clock read, and so is the deadline to be published |
| EventLoopSafety.OverdueIsScanned | src/server/sessions_event_loop.cpp:325-328 | a deadline which has passed starts a scan, outside the stated exception |
| EventLoopSafety.EventsHandled | src/server/sessions_event_loop.cpp:271-301 | when the loop is done with the events, every session epoll reported was called |
| EventLoopSafety.NoSessionForgotten | src/server/sessions_event_loop.cpp:355-361 | while the loop waits, every session which is not destroyed is being built, registered or to be deleted |
| EventLoopSafety.NoBusyWait | src/server/sessions_event_loop.cpp:349-353 | the loop does not wait less than until the earliest published deadline |
| EventLoopSafety.ScanFindsItsSession | src/server/sessions_event_loop.cpp:331-338 | every session the scan comes to is alive |
| EventLoopSafety.SessionKeepsDeadlines | src/server/sessions_event_loop.cpp:209-218 | the compare-and-exchange loop publishes a deadline despite other threads, before and after the stream is made |
| EventLoopSafety.SessionKeepsSessions | src/server/server_session.h:123-191 | what a resumed session does, repeated deletion included, keeps the lifetimes |
| EventLoopRuns.StalledRegistration | src/server/sessions_event_loop.cpp:122-135 | there is a run in which removing a session from epoll fails, because its registration is held up |
| EventLoopRuns.FailedRemovalKills | src/server/sessions_event_loop.cpp:182-194 | whenever it fails, the run goes on to one in which the accepting thread holds a destroyed session |
| EventLoopRuns.FirstDeadlineLost | src/server/server_session.h:69-73 | there is a run in which the loop waits without a limit although a registered session which never ran has a deadline |
| EventLoopRuns.HandshakeDeadlineLost | src/server/server_session.h:194-206 | there is a run in which the loop waits past the deadline of a registered session it has resumed, which is still in its handshake |
| Lru.LruCache.constructor | include/dracon/utils.h:223-225 | the cache starts empty |
| Lru.LruCache.Put | include/dracon/utils.h:227-236 | the list becomes the new entry, then the others, cut to the size; hash and list stay linked |
| Lru.LruCache.Reference | include/dracon/utils.h:244-262 | a hit returns the value of the key and moves it to the front, a miss changes nothing |
| Lru.LruCache.Exists | include/dracon/utils.h:264-268 | the answer is whether the list has the key |
| Lru.LruCache.Resize | include/dracon/utils.h:270-275 | the list is cut to the new size |
| Lru.LruCache.Clear | include/dracon/utils.h:277-282 | the list is empty |
| Lru.LruCache.Erase | include/dracon/utils.h:306-312 | the entry is gone from list and hash, the others keep their order |
| Lru.LruCache.CleanCache | include/dracon/utils.h:321-328 | the entries at the end are dropped until the size is kept |
| Lru.RunRecent | include/dracon/utils.h:202-328 | over any run keys are distinct, the size is kept, and the entries before a key were used since its last use |
| Lru.EvictedIsLeastRecent | include/dracon/utils.h:227-236 | a key evicted by a put has had as many distinct other keys used since its last use as the cache holds |
| Lru.HitEvictsNobody | include/dracon/utils.h:227-236 | a put of a cached key evicts nothing |
| Lru.RunValues | include/dracon/utils.h:227-236 | over any run a cached value is the one put last under its key |
| Query.SplitOf | include/dracon/utils.h:182-200 | the loop computes the split with a count |
| Query.SplitIsFields | include/dracon/utils.h:167-200 | the pieces are the non-empty fields between the separators, with any count and without |
| Query.UnescapeUrl | include/dracon/utils.h:136-160 | the loop decodes escapes and '+', or fails on a truncated or malformed escape |
| Query.ParseQueryOf | include/dracon/restful.h:531-549 | the loop yields the pairs in order or the first error |
| Query.EncodeUndone | include/dracon/utils.h:136-160 | every percent-encoding of a byte string is undone, with spaces as '+' or not |
| Query.UnescapeFails | include/dracon/utils.h:143-153 | decoding fails if and only if some '%' is not followed by two hexadecimal digits |
| Query.QueryRoundTrip | include/dracon/restful.h:531-549 | a list of pairs comes back in order if and only if no key is empty, whatever bytes a client chooses to escape |
| Query.PairParsed | include/dracon/restful.h:533-548 | how each pair is parsed: with an empty key the value takes its place, and without both it is an error |
| Query.SeparatorsRedundant | include/dracon/utils.h:170-172 | doubled, leading and trailing separators produce nothing |
| Router.ParseRouteParts | include/dracon/restful.h:400-413 | the loop computes the parts of a route, or the error |
| Router.RoutePartsIff | include/dracon/restful.h:400-413 | a route has these parts if and only if its pieces are the captures in braces and the fixed texts of at least two characters they are written as |
| Router.RouteRefused | include/dracon/restful.h:404-406 | a route is refused if and only if a piece has less than two characters |
| Router.RouteWritten | include/dracon/restful.h:400-413 | every list of such parts comes back from its text |
| Router.FilledMatches | include/dracon/restful.h:427-446 | a path with values in the places of the captures matches and gives exactly these values in order |
| Router.MatchesFilled | include/dracon/restful.h:427-446 | no other path matches |
| Router.FilledIsHandled | include/dracon/restful.h:514-559 | a URL made this way is handled with exactly these values, if no earlier route serves it |
| Router.RouteAndAsk | include/dracon/restful.h:493-559 | the same from the text of the route to the answer of the router |
| Router.Route.constructor | include/dracon/restful.h:415-425 | a route starts without methods |
| Router.Route.SetMethodHandler | include/dracon/restful.h:378-388 | the handler is stored, and the Allow string is the ", "-join of the distinct methods but OPTIONS in order of first registration, for non-empty names |
| Router.Route.CreateHandler | include/dracon/restful.h:427-446 | whether path and method match, with the captures in route order |
| Router.RestfulRouter.constructor | include/dracon/restful.h:476-481 | the base is the split of the base URL |
| Router.RestfulRouter.CreateRoute | include/dracon/restful.h:493-499 | a route with the same parts is reused, so no two routes have equal parts |
| Router.RestfulRouter.CreateHandler | include/dracon/restful.h:514-559 | the answer is the declarative one: first route serving path and method, else 405 of the first path match, else nothing |
| Router.OneAnswer | include/dracon/restful.h:514-559 | the declarative reading has exactly one answer |
| Router.SlashesRedundant | include/dracon/restful.h:516-518 | doubled, leading and trailing slashes in the path of a URL, with or without a query, do not change the answer |
| Response.AppendHeaderPart | include/dracon/http.h:122-130 | the part is appended with CR, LF and NUL replaced, in place |
| Bytes.DecimalOfText | include/dracon/http.h:132-137 | the printed number reads back as the number |
| Response.HttpResponse.constructor | include/dracon/http.h:200-205 | the announced length is the length of the body |
| Response.HttpResponse.SetContentLength | include/dracon/http.h:223-228 | announcing a length drops the body held |
| Response.HttpResponse.SetBody | include/dracon/http.h:246-251 | the announced length follows the body |
| Response.HttpResponse.ToString | include/dracon/http.h:267-322 | a client which reads the text finds the registered line of the status or that of 500, the caller's fields cleaned and in order, the framing, the connection options and the body, if and only if no field name is deceptive |
| Response.PromiseIff | include/dracon/http.h:267-322 | the same for the lines the text is made of |
| Response.ComputedIff | include/dracon/http.h:284-291 | the four comparisons are those of the canonical name |
| Response.HeadEndsOnce | include/dracon/http.h:267-322 | the first empty line ends the head for all fields and bodies, and what follows is exactly the body |
| Response.OneFraming | include/dracon/http.h:284-307 | without deceptive names a client finds exactly one line which frames the body, none for 1xx and 204, whatever the caller set |
| Response.LengthIsTrue | include/dracon/http.h:299-321 | the length a client finds is that of the body it finds |
| Accounting.AccountingConserved | src/server/server.cpp:504-513 | in every interleaving the counters are the connections counted and not released, within the limit, without zero entries; the published count and the peak are right |
| Accounting.RunConserves | src/server/server.cpp:567-599 | every step keeps these laws, and the peak is the most sessions there ever were |
| Accounting.AdmittedIff | src/server/server.cpp:504-513 | in every reachable state a connection is admitted if and only if its address has fewer than the limit which are not released |
| Accounting.ReleaseFindsItsEntry | src/server/server.cpp:583-599 | a session which leaves always finds the entry of its address |
| Accounting.ZeroLimitLeavesEntries | src/server/server.cpp:507-511 | with a limit of zero an address which is refused leaves an entry |

## Left out

- Body callbacks which throw or suspend: a callback is assumed to return without yielding, since the read buffer is shared by all sessions of a loop.
- The wrap-around of `m_received` at 2^64 body bytes, and byte counts beyond the address space; `BodyAccount` takes lengths and limits as unbounded numbers.
- Handlers which call `request::set_state` themselves.
- Requests no plugin serves, which are answered with a 503 and end the connection, and the responses to thrown errors.
- Status codes of refused requests across cuts: which of 400 and 431 an overlong bad request line gets depends on the cut, so only refusal is compared.
- OpenSSL, epoll, sockets and coroutine switching themselves: they are nondeterministic reads, writes and actions.
- The shutdown of the loop and of the server, thread joins, and liveness: the theorems about the event loop are safety properties.
- Failing epoll calls other than in `EventLoopRuns`, and failing allocations.
- A steady clock is assumed, and the arithmetic which turns a deadline into the milliseconds of `epoll_wait` is not modelled.
- EventLoop: one event loop with its sessions; the choice of the least used loop and workload balancing only reorder the batch, which has no order here.
- Accounting: allocation of a session is assumed to succeed, and a session is known by a number instead of its address.
- Lru.LruCache.Reference: the reference it returns is a copy, so changing the cached value through it is not modelled.
- OutStreams.OutStream.Write: a write is taken as one piece of any length, without the bound of the 24-byte header buffer.
- EndToEnd.Respond: the handler flushes the stream buffer before it writes past it, and ends at its first write which fails; handlers which swallow that error and go on writing are not modelled.
- Router: handlers are numbers, and the template code which binds captures to their parameters is not modelled.
- Response: the status table is a parameter, each entry of it a single line, and the fields are a sequence in the order the map yields them.
- The static content, certificate and status plugins, configuration, logging, mime types and packaging, which are input and output or would only add easy members.
