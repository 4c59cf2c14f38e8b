# Verified model of the server's parsers, reactor, buffers and codecs

The repository is an HTTP and WebSocket server built on a bundled copy of muduo (the reactor, timers, buffers, logging)
and of http_parser. This project models the parts of it that carry the logic and proves what they are for. Each module
follows one component; where the source changes an object step by step there is a class whose methods are proved against
a specification function, and the theorems (over every input, every way of cutting the input up, every run) are lemmas
about those functions.

| Modules | What they model |
|---|---|
| `Wrappers` | the Option type |
| `HttpTypes`, `HttpStep` | the parser's fields, and `http_parser_execute` one byte at a time as a pure function |
| `Streaming`, `HttpRun`, `HttpExecute` | runs of such a machine over a byte stream, and the real loop (marks, name and value loops, the skip to the next CR or LF, the body jumps, the end-of-data callbacks) proved to compute the same run |
| `HttpSafety` | what every byte keeps: every table index in bounds, every 64-bit length in range |
| `HttpHeaders`, `HttpConnection`, `HttpFraming`, `HttpNumbers` | the header matchers, the Connection list, the length numbers, version and status numbers, each against a plain reference definition |
| `HttpLines`, `HttpRequestLine`, `HttpStatusLine`, `HttpRequests`, `HttpResponses` | header lines, request and status lines, whole requests, pipelines of requests in any pieces, upgrades, whole responses up to the end of the connection |
| `UrlParser` | `http_parser_parse_url` and its two automata |
| `AsyncLogging`, `EventLoop`, `BoundedQueue` | the concurrent components as step relations over all interleavings, and the objects whose methods are those steps |
| `TimerQueue` | the two indexes over the timers, re-entrant callbacks, address reuse, the arming of the timerfd |
| `Calendar`, `TimeZone` | Julian day numbers, UTC broken-down time, local time and the way back |
| `Bytes`, `Buffer`, `TcpConnection`, `Pollers` | the network buffer, the output side of a connection, the poll and epoll bookkeeping |
| `ProtobufCodec`, `WebSocket`, `WebSocketCodec`, `Base64` | the wire formats: printers, incremental parsers and round trips |

How to read the HTTP part. `Run(f, p, out, data)` is the run of a one-byte machine `f` from parser `p`; its output is the
stream of callbacks with adjacent pieces of one field joined (`Norm`), because the source may cut a field wherever a buffer
ends. `RunSplit` says that cutting the input does not matter to such runs. `HttpParser.Execute` is the loop of the source;
its contract says that one call on a buffer does exactly what the run of `HttpStep.Step` over these bytes does. The other
theorems then speak about runs only.

The concurrent modules treat each read or write of a shared variable, and each critical section, as one step; a run is any
sequence of enabled steps, and the invariants hold after every run.

## Model

| member | source | states |
|---|---|---|
| Streaming.RunSplit | woody/lib/http_parser/http_parser.c:628-2108 | for any one-byte machine, a run over a + b is the run over a continued over b: where the input is cut changes neither state, nor outcome, nor joined callback stream |
| Streaming.TotalSplit | woody/lib/http_parser/http_parser.c:154-161 | the header byte count over a + b is the count over b started from the count over a |
| Streaming.TotalSlack | woody/lib/http_parser/http_parser.c:1452-1457 | a count that starts at most k too high ends at most k too high: what makes the over-count at buffer ends bounded by the number of calls |
| HttpExecute.HttpParser.Execute | woody/lib/http_parser/http_parser.c:628-2108 | one call on any buffer leaves the parser, errno, consumed count and joined callback stream of the one-byte run, the count at most one too high; a header-overflow error means that some beginning has too many header bytes (counting one for the end of the buffer), and without an error none has; what it does at end of file and after an error |
| HttpExecute.HttpParser.AtEof | woody/lib/http_parser/http_parser.c:644-668 | an empty buffer completes a body that runs to the end of file, is accepted between messages, and is an error everywhere else |
| HttpExecute.HttpParser.FieldBytes | woody/lib/http_parser/http_parser.c:1340-1457 | the header-name loop agrees with the one-byte machine at the byte it stops at |
| HttpExecute.HttpParser.ScanField | woody/lib/http_parser/http_parser.c:1340-1467 | the name loop, its accounting and its ending colon are the one-byte run |
| HttpExecute.HttpParser.SkipGeneral | woody/lib/http_parser/http_parser.c:1566-1589 | the skip over a value stops at the first CR or LF, or at the capped limit or end of data, and passes neither before that |
| HttpExecute.HttpParser.ValueBytes | woody/lib/http_parser/http_parser.c:1542-1719 | the header-value loop agrees with the one-byte machine, or fails at the same byte with the same error |
| HttpExecute.HttpParser.ScanValue | woody/lib/http_parser/http_parser.c:1542-1726 | the value loop, its skips, its accounting and its line end are the one-byte run |
| HttpExecute.HttpParser.ReadBody | woody/lib/http_parser/http_parser.c:1899-1949 | taking as much body or chunk data as there is in one jump is the run over these bytes, the last of which may complete the message |
| HttpExecute.HttpParser.CountHeaderSize | woody/lib/http_parser/http_parser.c:154-161 | the header limit is enforced exactly |
| HttpExecute.HttpParser.Flush | woody/lib/http_parser/http_parser.c:2084-2100 | at the end of the data the one pending field, and nothing else, is delivered up to there |
| HttpExecute.HttpParser.Feed | woody/lib/http_parser/http_parser.c:628-2108 | any sequence of calls on non-empty pieces does what one run over their concatenation does, the count off by at most the number of pieces; no beginning over the header limit goes by without an error |
| HttpExecute.FeedBothWays | woody/lib/http_parser/http_parser.c:628-2108 | two equal parsers, one fed whole and one in pieces, end equal: bytes taken, errno, all fields, joined callbacks (no upgrade, no header overflow) |
| HttpRun.GeneralRun | woody/lib/http_parser/http_parser.c:1566-1589 | a stretch of a value nobody looks into, without CR or LF, leaves the parser as it is and is delivered exactly |
| HttpRun.BodyRun | woody/lib/http_parser/http_parser.c:1899-1939 | after k bytes of body the remaining length is smaller by exactly k and exactly these k bytes have been delivered |
| HttpSafety.StepWordsFit | woody/lib/http_parser/http_parser.c:1340-1448 | every byte keeps every index into a method or header word inside the word |
| HttpSafety.StepBodyFits | woody/lib/http_parser/http_parser.c:1596-1621 | every byte keeps the length within 64 bits, below the sentinel where it is a real length, and positive in the body states |
| HttpSafety.RunFits | woody/lib/http_parser/http_parser.c:628-2108 | both hold after every run that is not over |
| HttpHeaders.NameRecognised | woody/lib/http_parser/http_parser.c:1290-1467 | the name matcher ends where a case-insensitive comparison with the known names would, for every token, and delivers the name whole |
| HttpHeaders.ValueRecognised | woody/lib/http_parser/http_parser.c:1484-1715 | for Transfer-Encoding, and Connection without commas, the value matcher ends exactly where a case-insensitive comparison with the known words (blanks after them allowed) would |
| HttpConnection.OptionsRecognised | woody/lib/http_parser/http_parser.c:1634-1710 | on any Connection list the parser sets the flags of exactly the options among the words it looks at: all words, but for one after an unfinished option, and those after a word without a token character at its start |
| HttpConnection.OptionsRight | woody/lib/http_parser/http_parser.c:1634-1710 | against the list as section 7 of RFC 7230 reads it: the flags are right exactly if each option not set before is in the list if and only if it is a word that is looked at |
| HttpConnection.OptionsMissed | woody/lib/http_parser/http_parser.c:1634-1710 | without NUL bytes nothing is read into a list, so the flags are wrong exactly if an option of the list is at no place that is looked at |
| HttpConnection.PlainListRight | woody/lib/http_parser/http_parser.c:1634-1710 | they are right for every list, of any length, order and case, whose words before the last are complete and start with a token character, without tabs and NULs |
| HttpConnection.UnfinishedWordHides | woody/lib/http_parser/http_parser.c:1657-1690 | what is missed: a comma right after a proper beginning of a known option is swallowed, so that the next word, whatever it is, is not looked at, and the one after it is |
| HttpConnection.BadStartHides | woody/lib/http_parser/http_parser.c:1634-1650 | the other exception: after a word that does not start with a token character, an empty one or one behind a tab included, no further word is looked at |
| HttpFraming.LengthRecognised | woody/lib/http_parser/http_parser.c:1596-1621 | a Content-Length is accepted exactly when it is digits and blanks of value at most 18446744073709551609, as that value; nothing wraps |
| HttpFraming.SizeRecognised | woody/lib/http_parser/http_parser.c:1951-2002 | a chunk size is accepted exactly when its value is at most (2^64 - 1) - 16, as that value |
| HttpFraming.ChunkRun | woody/lib/http_parser/http_parser.c:1951-2071 | a chunk, with any extension, is announced, delivered exactly and closed |
| HttpFraming.ChunksRun | woody/lib/http_parser/http_parser.c:1951-2071 | any list of chunks is delivered exactly and in order, chunk by chunk |
| HttpFraming.IdentityRun | woody/lib/http_parser/http_parser.c:1899-1949 | a body of the declared length is delivered exactly and completes the message once, with its last byte |
| HttpNumbers.NumberRun | woody/lib/http_parser/http_parser.c:1202-1268 | version numbers and status codes are read as their decimal value, refused exactly above 999 |
| HttpLines.LineRun | woody/lib/http_parser/http_parser.c:1290-1801 | a header line, with any white space before its value, an empty value or a bare LF included, delivers its name and value whole and has exactly the effect of the reference definition; the callback of an empty value comes with the next line |
| HttpLines.LinesRun | woody/lib/http_parser/http_parser.c:1290-1801 | so does a block of lines; it is refused only for a bad Content-Length |
| HttpRequestLine.MethodRun | woody/lib/http_parser/http_parser.c:947-1093 | whatever resembles the name of one of the 33 methods, the names themselves in particular, is taken for it; resembling: the same letters, but for any second one where the first is A, B, D, G, H, N, O, T or U |
| HttpRequestLine.MethodAccepted | woody/lib/http_parser/http_parser.c:947-1093 | and nothing else: a word and a space are read as method m if and only if the word resembles the name of m and has its length |
| HttpRequestLine.SecondLetterLoose | woody/lib/http_parser/http_parser.c:1041-1060 | so a wrong name is accepted exactly if it is wrong in its second letter alone and begins with one of these nine letters |
| HttpRequestLine.BlankLines | woody/lib/http_parser/http_parser.c:947-950 | CR and LF before a request are passed over without a trace |
| HttpRequestLine.UrlRun | woody/lib/http_parser/http_parser.c:1095-1166 | the target follows the URL automaton and is delivered whole |
| HttpRequestLine.OriginForm | woody/lib/http_parser/http_parser.c:480-626 | every origin-form target (section 5.3.1 of RFC 7230) is accepted |
| HttpRequestLine.RequestLineRun | woody/lib/http_parser/http_parser.c:947-1288 | a request line is read as its method, target and version |
| HttpStatusLine.StatusLineRun | woody/lib/http_parser/http_parser.c:751-945 | a status line is read as its version and code, and its reason is delivered whole |
| HttpStatusLine.BlankLinesBegin | woody/lib/http_parser/http_parser.c:751-774 | any string of CR and LF before a status line announces one message more for each of its bytes: exactly one in all if and only if the string is empty |
| HttpRequests.ChunkedRun | woody/lib/http_parser/http_parser.c:1951-2071 | a chunked body with trailers (section 4.1 of RFC 7230) is delivered exactly, with one completion |
| HttpRequests.ContentRun | woody/lib/http_parser/http_parser.c:1853-1949 | the content is read as its headers announce it: none, of known length, or chunked |
| HttpRequests.MessageRun | woody/lib/http_parser/http_parser.c:628-2108 | any request whose header lines are not folded gives exactly its callbacks, with the right method, version, flags and keep-alive at headers-complete (upgrades and skipped bodies: UpgradeRun, SkipRun) |
| HttpRequests.MessagesRun | woody/lib/http_parser/http_parser.c:628-2108 | pipelined requests are parsed one by one, and nothing leaks from one into the next |
| HttpRequests.NoOverflow | woody/lib/http_parser/http_parser.c:154-161 | a stream shorter than the limit, less one byte a call, cannot overflow the header count |
| HttpRequests.Serve | woody/lib/http_parser/http_parser.c:628-2108 | a new connection fed a pipeline of requests in any pieces delivers exactly these requests and waits for the next |
| HttpResponses.UpgradeRun | woody/lib/http_parser/http_parser.c:1803-1865 | a request that leaves HTTP (CONNECT, or upgraded without a body) gives its callbacks, and the call returns just after its headers, whatever follows |
| HttpResponses.SkipRun | woody/lib/http_parser/http_parser.c:1853-1873 | a request whose body the callback declares absent is complete with its headers, whatever they announce |
| HttpResponses.ResponseRun | woody/lib/http_parser/http_parser.c:751-1949 | a response that is framed by its headers, or whose status allows no body, is delivered exactly, with one completion |
| HttpResponses.EofResponseRun | woody/lib/http_parser/http_parser.c:1887-1940 | a response without framing delivers everything after its headers as its body and is not complete |
| HttpResponses.ReceiveToEof | woody/lib/http_parser/http_parser.c:644-668 | fed in any pieces and then told of the end of the connection, it is complete, with exactly that body |
| UrlParser.HttpParserUrl.ParseHost | woody/lib/http_parser/http_parser.c:2272-2351 | http_parse_host computes the second automaton's run over the server part, or fails exactly when that run does |
| UrlParser.HttpParserUrl.ScanParts | woody/lib/http_parser/http_parser.c:2366-2423 | the loop over the URL computes the first automaton's run, or stops at its first refused byte |
| UrlParser.HttpParserUrl.ParseUrl | woody/lib/http_parser/http_parser.c:2358-2460 | the whole function is the two runs and the port number, and its error conditions are exactly these |
| UrlParser.UrlLayout | woody/lib/http_parser/http_parser.c:2358-2460 | on success the parts are non-empty, in bounds, disjoint, in the order schema, userinfo, host, port, path, query, fragment; every byte is in a part or a delimiter; a CONNECT target is host and port |
| UrlParser.PortValue | woody/lib/http_parser/http_parser.c:2444-2457 | the port is the decimal value of its digits and at most 65535; strtoul goes on into digits after the buffer, if the port is its end |
| UrlParser.UrlRoundTrip | woody/lib/http_parser/http_parser.c:2358-2460 | an address written out is cut back into exactly its schema, userinfo, host (IPv6 brackets removed), port, path, query and fragment |
| UrlParser.OriginRoundTrip | woody/lib/http_parser/http_parser.c:2358-2460 | so is a target in origin form, into its path, query and fragment and no other part |
| UrlParser.ConnectRoundTrip | woody/lib/http_parser/http_parser.c:2358-2460 | and the target of CONNECT, into host and port |
| UrlParser.FragmentAfterHost | woody/lib/http_parser/http_parser.c:540-558 | a fragment directly after the server part is refused, whatever follows |
| AsyncLogging.RunOk | lib/muduo/base/AsyncLogging.cc:53-128 | in every interleaving: spare buffers are empty, and no next buffer means a queued one, so that both spares can be refilled |
| AsyncLogging.NeverStuck | lib/muduo/base/AsyncLogging.cc:53-128 | the logging thread always has its next step, the refills included |
| AsyncLogging.RunAccounted | lib/muduo/base/AsyncLogging.cc:29-128 | in every interleaving: the batches done with, what was dropped from them, and the buffers in hand, queued and current are the appended lines, in order; the file shows the batches in order, each one that lost buffers headed by a notice with their number; buffers are dropped only from a batch of more than 25, all but the first two |
| AsyncLogging.NothingLost | lib/muduo/base/AsyncLogging.cc:29-128 | while there is no notice in the file, file and memory together are exactly the appended lines |
| AsyncLogging.StopLoses | lib/muduo/base/AsyncLogging.cc:63-127 | what is still in memory when the thread has stopped: all it had not taken at stop() and all appended later, if it was not between its test of running_ and taking the buffers; if it was, nothing unless something is appended later. Without later appends text is lost if and only if it was not there and had not taken everything |
| AsyncLogging.StopMayLoseLines | lib/muduo/base/AsyncLogging.cc:63-127 | an instance: any line appended to a fresh logger just before stop() is lost |
| AsyncLogging.AsyncLog.Append | lib/muduo/base/AsyncLogging.cc:29-51 | append is the append step, current and next buffer and queue included |
| AsyncLogging.AsyncLog.Test | lib/muduo/base/AsyncLogging.cc:63 | the test of running_ |
| AsyncLogging.AsyncLog.Enter | lib/muduo/base/AsyncLogging.cc:69-87 | the critical section, up to the wait if there is one |
| AsyncLogging.AsyncLog.Wake | lib/muduo/base/AsyncLogging.cc:69-87 | the critical section after a wait |
| AsyncLogging.AsyncLog.DropExcess | lib/muduo/base/AsyncLogging.cc:91-99 | more than 25 buffers are cut to two, with a notice |
| AsyncLogging.AsyncLog.WriteBuffer | lib/muduo/base/AsyncLogging.cc:101-105 | one buffer written |
| AsyncLogging.AsyncLog.TakeBack | lib/muduo/base/AsyncLogging.cc:107-125 | two buffers kept, both spares refilled and empty |
| EventLoop.RunOk | lib/muduo/net/EventLoop.cc:102-308 | the invariant over all runs of the loop thread and any number of other threads |
| EventLoop.NoLostWakeup | lib/muduo/net/EventLoop.cc:160-171 | about to poll or polling with a functor pending (queued since the loop began, or by another thread): the eventfd is readable or a thread is between its push and its wakeup; likewise for quit |
| EventLoop.CalledOnceInOrder | lib/muduo/net/EventLoop.cc:293-308 | called, taken and pending functors are the queued ones in order: each is called at most once, in queue order |
| EventLoop.Drains | lib/muduo/net/EventLoop.cc:102-134 | from a poll with the eventfd readable the loop thread reads it and calls everything pending |
| EventLoop.EarlyFunctorsWait | lib/muduo/net/EventLoop.cc:160-171 | the exception, for all runs of the loop thread alone: whatever functors it queued before loop(), the first poll finds all of them pending, the eventfd not readable and nobody about to write to it, and the loop does not quit whatever was asked before |
| EventLoop.QuitBeforeLoop | lib/muduo/net/EventLoop.cc:102-146 | a quit() before loop() is forgotten, by whatever thread: the loop ends at its first test if and only if another thread calls quit() after it began |
| EventLoop.EventLoopObject.QueueInLoop | lib/muduo/net/EventLoop.cc:160-171 | the push and the decision to wake |
| EventLoop.EventLoopObject.Quit | lib/muduo/net/EventLoop.cc:136-146 | quit() |
| EventLoop.EventLoopObject.ReadWakeup | lib/muduo/net/EventLoop.cc:283-291 | reading the eventfd empties it |
| EventLoop.EventLoopObject.SwapPendingFunctors | lib/muduo/net/EventLoop.cc:293-302 | the swap under the lock |
| EventLoop.EventLoopObject.CallFunctor | lib/muduo/net/EventLoop.cc:303-306 | one call, the functor at the index |
| BoundedQueue.NoLostWakeup | lib/muduo/base/BoundedBlockingQueue.h:31-55 | in every interleaving, with spurious wakeups and barging: while takers wait the queue is no longer than the takers woken, dually for putters; the capacity is kept |
| BoundedQueue.NoDeadlock | lib/muduo/base/BoundedBlockingQueue.h:31-55 | takers and putters never all wait for each other, unless the capacity is 0 |
| BoundedQueue.NoPlacesNoProgress | lib/muduo/base/BoundedBlockingQueue.h:31-55 | with capacity 0 they do: whatever happens but spurious wakeups, the queue stays empty, everyone who has come waits and nobody is woken |
| BoundedQueue.FirstInFirstOut | lib/muduo/base/BoundedBlockingQueue.h:31-55 | taken items followed by the queue are the items put, in order |
| BoundedQueue.BoundedBlockingQueue.PutOnce | lib/muduo/base/BoundedBlockingQueue.h:31-41 | one round of put: wait, or push and notify one taker |
| BoundedQueue.BoundedBlockingQueue.TakeOnce | lib/muduo/base/BoundedBlockingQueue.h:43-55 | one round of take: wait, or pop the front and notify one putter |
| TimerQueue.RunOk | lib/muduo/net/TimerQueue.cc:118-276 | on every run, callbacks that add and cancel and reused addresses included: both indexes hold the same timers under their current expiration; each timer is being added, pending, in the batch or deleted, deleted once; the timerfd is armed for the earliest |
| TimerQueue.FiresInTime | lib/muduo/net/TimerQueue.cc:42-82 | outside the callbacks a non-empty queue has the timerfd armed to go off by the earliest expiration or 100 microseconds after the arming |
| TimerQueue.SameSize | lib/muduo/net/TimerQueue.cc:160 | the size assertions hold |
| TimerQueue.ExpiredExactly | lib/muduo/net/TimerQueue.cc:198-218 | the batch is exactly the timers due, in order, the rest exactly the others |
| TimerQueue.StaleIdHarmless | lib/muduo/net/TimerQueue.cc:157-175 | a TimerId whose timer is gone cancels nothing, even if its address is in use again |
| TimerQueue.CancelsItsTimer | lib/muduo/net/TimerQueue.cc:157-175 | a TimerId in use removes its timer from both indexes, deletes it, and touches no other |
| TimerQueue.BatchOutcome | lib/muduo/net/TimerQueue.cc:220-250 | each timer of the batch is put back at now + interval if it repeats and was not cancelled, and deleted otherwise |
| TimerQueue.CancelInBatchSticks | lib/muduo/net/TimerQueue.cc:157-250 | cancel a timer of the batch from a callback, go on in any way: at the end of the batch it is deleted, not put back |
| TimerQueue.TimerQueueObject.NewTimer | lib/muduo/net/TimerQueue.cc:118-126 | a new timer gets a fresh sequence number |
| TimerQueue.TimerQueueObject.InsertTimer | lib/muduo/net/TimerQueue.cc:252-276 | both indexes get the timer; the answer says whether it is the new earliest |
| TimerQueue.TimerQueueObject.AddTimerInLoop | lib/muduo/net/TimerQueue.cc:146-155 | insertion, and rearming when the earliest changed |
| TimerQueue.TimerQueueObject.CancelInLoop | lib/muduo/net/TimerQueue.cc:157-175 | cancelling, from a callback or not |
| TimerQueue.TimerQueueObject.GetExpired | lib/muduo/net/TimerQueue.cc:198-218 | the range erased from one index and its members from the other |
| TimerQueue.TimerQueueObject.BeginHandleRead | lib/muduo/net/TimerQueue.cc:177-192 | handleRead up to the callbacks |
| TimerQueue.TimerQueueObject.EndHandleRead | lib/muduo/net/TimerQueue.cc:194-250 | the end of handleRead: reset and rearming |
| Calendar.DateRoundTrip | lib/muduo/base/Date.cc:20-42 | date to day number and back is the identity, for every Gregorian date from March of the year -4800 on |
| Calendar.NumberRoundTrip | lib/muduo/base/Date.cc:20-42 | every day number gives a date of the calendar, whose day number it is |
| Calendar.NextDayNumber | lib/muduo/base/Date.cc:20-27 | consecutive days have consecutive numbers, leap years and centuries included |
| Calendar.NoOverflow | lib/muduo/base/Date.cc:29-42 | no intermediate value leaves 32 bits, up to the last day number for which that is so |
| Calendar.Epoch | lib/muduo/base/Date.cc:44 | the constant for 1970-01-01, a Thursday |
| Calendar.WeekDays | lib/muduo/base/Date.h:96-99 | days of the week follow each other |
| Calendar.UtcRoundTrip | lib/muduo/base/TimeZone.cc:317-358 | every time, negative ones included, breaks down into fields in range and is put together again; yday counts from 1 January |
| Calendar.TimeRoundTrip | lib/muduo/base/TimeZone.cc:317-358 | every broken-down time comes back from its seconds |
| TimeZone.MakeTransitions | lib/muduo/base/TimeZone.cc:195-205 | each transition gets its local time from its offset |
| TimeZone.Search | lib/muduo/base/TimeZone.cc:218-250 | the binary search finds what that definition finds, on transitions in order |
| TimeZone.FindsLast | lib/muduo/base/TimeZone.cc:218-250 | the lookup finds what is in force after the last transition not after the key, on either ordering; std::lower_bound is specified by its linear definition |
| TimeZone.LocalRoundTrip | lib/muduo/base/TimeZone.cc:272-315 | for zones that alternate between standard and daylight time, the way back gives t exactly when t is not in a repeated stretch or daylight time is one hour ahead; otherwise it is off by the difference |
| Bytes.FromToBig | lib/muduo/net/Buffer.h:224-231 | an integer in network order is read back |
| Bytes.ToFromBig | lib/muduo/net/Buffer.h:290-297 | bytes read as an integer are written back |
| Bytes.SignedRoundTrip | lib/muduo/net/Buffer.h:224-325 | so are signed integers, of any width |
| Buffer.Buffer.MakeSpace | lib/muduo/net/Buffer.h:390-409 | enough room, same content, by growing or by moving in place; the assertion of the source holds |
| Buffer.Buffer.Append | lib/muduo/net/Buffer.h:182-187 | append is concatenation |
| Buffer.Buffer.Retrieve | lib/muduo/net/Buffer.h:113-124 | retrieve drops from the front |
| Buffer.Buffer.RetrieveAsString | lib/muduo/net/Buffer.h:164-170 | takes and drops |
| Buffer.Buffer.Unwrite | lib/muduo/net/Buffer.h:215-219 | drops from the end |
| Buffer.Buffer.Prepend | lib/muduo/net/Buffer.h:354-360 | prepend is concatenation in front |
| Buffer.Buffer.Shrink | lib/muduo/net/Buffer.h:362-369 | the content survives, with the room asked for |
| Buffer.Buffer.Swap | lib/muduo/net/Buffer.h:61-66 | contents are exchanged |
| Buffer.Buffer.ReadFd | lib/muduo/net/Buffer.cc:25-57 | the two-segment read appends exactly what was read, also when it overflows into the extra buffer, and nothing on error |
| Buffer.Buffer.FindCRLF | lib/muduo/net/Buffer.h:80-94 | the first CRLF from the start position, or none exactly when there is none |
| Buffer.Buffer.PeekInt | lib/muduo/net/Buffer.h:290-325 | the integer at the front |
| Buffer.IntThrough | lib/muduo/net/Buffer.h:328-360 | an integer put in front of a message is read back and leaves the message |
| TcpConnection.RunCore | lib/muduo/net/TcpConnection.cc:139-213 | on every run, with sends and shutdowns of the loop thread and of others: wire followed by output buffer is every message taken, in order; write interest exactly while the buffer is not empty, up to the close; a write side shut before a close means that all taken is on the wire |
| TcpConnection.StepForward | lib/muduo/net/TcpConnection.cc:194-428 | the state only moves forward; once the write side is shut nothing is taken or written, and it is shut only when everything taken is on the wire, or after a close |
| TcpConnection.ShutOnce | lib/muduo/net/TcpConnection.cc:194-213 | on every run shutdownWrite() is called at most once, but for a shutdown handed over by another thread that runs when the write side is shut already, because the buffer drained in between: then, and only then, twice |
| TcpConnection.NothingAfterShutdown | lib/muduo/net/TcpConnection.cc:194-213 | over whole runs: after the write side is shut the wire does not change |
| TcpConnection.WriteCompleteMeans | lib/muduo/net/TcpConnection.cc:139-192 | a write-complete callback means the buffer is empty and all is on the wire |
| TcpConnection.DrainCompletes | lib/muduo/net/TcpConnection.cc:368-406 | handleWrite queues it exactly when it drains the buffer; a waiting shutdown happens then |
| TcpConnection.HighWaterCrossing | lib/muduo/net/TcpConnection.cc:174-191 | the high-water callback is queued exactly when the buffer crosses the mark from below |
| TcpConnection.RunAnnounced | lib/muduo/net/TcpConnection.cc:323-428 | on every run up and down are announced once each, as they happen, and the close callback is made once if the connection went down through handleClose, and otherwise never |
| TcpConnection.LateSendLost | lib/muduo/net/TcpConnection.cc:94-111 | a message handed over by another thread is lost exactly if it runs when the write side is shut; run before, and while something is being written, it is taken behind all before it |
| TcpConnection.LateSends | lib/muduo/net/TcpConnection.cc:94-213 | so what a shutdown loses, unless the peer breaks the connection, is exactly the handed-over messages that still waited when the write side was shut; everything taken by then is on the wire |
| TcpConnection.Connection.SendFromOther | lib/muduo/net/TcpConnection.cc:94-111 | send() called by another thread |
| TcpConnection.Connection.ShutdownFromOther | lib/muduo/net/TcpConnection.cc:194-203 | shutdown() called by another thread |
| TcpConnection.Connection.RunFirstTask | lib/muduo/net/TcpConnection.cc:139-213 | what was handed over runs over the real buffer |
| TcpConnection.Connection.SendNow | lib/muduo/net/TcpConnection.cc:139-192 | sendInLoop over the real buffer |
| TcpConnection.Connection.HandleWrite | lib/muduo/net/TcpConnection.cc:368-406 | handleWrite over the real buffer |
| TcpConnection.Connection.Shutdown | lib/muduo/net/TcpConnection.cc:194-213 | shutdown and shutdownInLoop |
| TcpConnection.Connection.HandleClose | lib/muduo/net/TcpConnection.cc:408-428 | handleClose |
| TcpConnection.Connection.Destroy | lib/muduo/net/TcpConnection.cc:334-345 | connectDestroyed |
| ProtobufCodec.OnMessageSplit | lib/muduo/net/protobuf/ProtobufCodecLite.cc:58-97 | where the bytes are cut does not matter, errors included |
| ProtobufCodec.RestIncomplete | lib/muduo/net/protobuf/ProtobufCodecLite.cc:58-97 | without an error only an incomplete frame is left |
| ProtobufCodec.FramesRoundTrip | lib/muduo/net/protobuf/ProtobufCodecLite.cc:42-97 | the frames of any messages, and a part of one more, give exactly these messages and leave that part |
| ProtobufCodec.TooLarge | lib/muduo/net/protobuf/ProtobufCodecLite.cc:65-69 | a message over the limit is refused and stays in the buffer |
| ProtobufCodec.FillEmptyBuffer | lib/muduo/net/protobuf/ProtobufCodecLite.cc:42-56 | the frame of the message, built in the real buffer |
| ProtobufCodec.Receive | lib/muduo/net/protobuf/ProtobufCodecLite.cc:58-97 | the loop of onMessage computes the reference function and terminates |
| ProtobufCodec.ReceiveAll | lib/muduo/net/protobuf/ProtobufCodecLite.cc:42-97 | frames arriving in any pieces, one call each, give exactly the messages |
| Pollers.PollPoller.UpdateChannel | lib/muduo/net/poller/PollPoller.cc:77-111 | the index bijection is kept, other channels are untouched; the channel is watched exactly if it is new, or has interest and was watched before. A new channel without interest is watched all the same, and only such a one breaks the rule that channels without interest are not |
| Pollers.PollPoller.RemoveChannel | lib/muduo/net/poller/PollPoller.cc:113-141 | the bijection survives the swap with the last entry, and every other channel stays as it was |
| Pollers.PollPoller.FillActiveChannels | lib/muduo/net/poller/PollPoller.cc:57-75 | exactly the channels with events, in order, although the loop stops early |
| Pollers.ReenabledIsIgnored | lib/muduo/net/poller/PollPoller.cc:101-109 | whatever interests a registered channel asks for after having asked for none, it is not watched |
| Pollers.EPollPoller.Update | lib/muduo/net/poller/EPollPoller.cc:173-193 | epoll_ctl on the kernel set, illegal calls counted |
| Pollers.EPollPoller.UpdateChannel | lib/muduo/net/poller/EPollPoller.cc:108-150 | a descriptor is in the kernel set exactly when its channel is marked added, with its latest events; no call is illegal |
| Pollers.EPollPoller.RemoveChannel | lib/muduo/net/poller/EPollPoller.cc:152-171 | the channel leaves both |
| WebSocket.ConvertFrameToString | woody/websocket/websocket_codec.cc:30-72 | appends exactly the header and body of the frame; a frame over 32 bits of length leaves one stray byte |
| WebSocket.Refuses | woody/websocket/websocket_parser.cc:20-50 | at a frame start Parse refuses exactly fewer than two bytes, or a first byte with reserved bits, a reserved opcode or an unfinished control frame |
| WebSocket.ParseHeader | woody/websocket/websocket_parser.cc:20-80 | shown a beginning of a valid frame, the header is taken whole or not at all |
| WebSocket.ParseShown | woody/websocket/websocket_parser.cc:20-105 | shown any part of a stream of valid frames, a call takes a correct part of it and hands over the next frame exactly when it is complete |
| WebSocket.WebsocketParser.ParseData | woody/websocket/websocket_parser.cc:20-116 | Parse over its fields is the reference function |
| WebSocket.ReceiveAll | woody/websocket/websocket_parser.cc:20-105 | serialised frames in any pieces, untaken bytes shown again: each is handed over once, in order, nothing is left |
| WebSocket.MaskInPlace | woody/websocket/websocket_frame.cc:8-17 | the loop combines octet i with octet i mod 4 of the key (section 5.3 of RFC 6455) |
| WebSocket.MaskTwice | woody/websocket/websocket_frame.cc:8-21 | unmasking what was masked gives it back |
| WebSocket.LongControlFrames | woody/websocket/websocket_parser.cc:52-80 | every control frame of more than 125 bytes is accepted: the check that should refuse it compares the opcode with 127 |
| WebSocketCodec.MaskedThrough | woody/websocket/websocket_codec.cc:263-282 | a masked body is recovered exactly, if its key is not zero; with key zero it is refused |
| WebSocketCodec.StaleKey | woody/websocket/websocket_codec.cc:263-282 | an unmasked body anywhere in a stream is refused exactly if the last key is zero: that of the last masked frame before it or, if there is none, what the uninitialised field held; otherwise it is unmasked with that key |
| WebSocketCodec.WebsocketCodec.OnParsedFrame | woody/websocket/websocket_codec.cc:131-261 | the frame handlers over the codec's fields, errors included |
| WebSocketCodec.MessagesThrough | woody/websocket/websocket_codec.cc:131-282 | masked messages of one or two frames, with control frames between the halves, give exactly these messages |
| WebSocketCodec.ReceiveMessages | woody/websocket/websocket_codec.cc:21-282 | the same from the wire, cut anywhere: parser and codec together deliver exactly the client's messages, in order |
| WebSocketCodec.MessageInParts | woody/websocket/websocket_codec.cc:155-203 | a text or binary message is delivered exactly when it has at most two frames; from three on it is lost and its beginning is put in front of the next of its kind |
| Base64.Encode | lib/bytree/ssl_util.hpp:19-57 | the encoding loop gives the encoding of section 4 of RFC 4648, four characters for every three bytes begun |
| Base64.Decode | lib/bytree/ssl_util.hpp:64-102 | the decoding loop decodes the longest usable beginning of the text, its tails filled with failed lookups |
| Base64.RoundTrip | lib/bytree/ssl_util.hpp:19-102 | decoding what was encoded gives it back, for every byte string, one- and two-byte tails included |
| Base64.Through | lib/bytree/ssl_util.hpp:19-102 | the two loops, one after the other |

## Left out

What the code does differently from what one would expect is not left out: it is stated as a lemma for all inputs, with the
condition under which the expected property does hold (`OptionsRight`, `OptionsMissed`, `MethodAccepted`,
`SecondLetterLoose`, `BlankLinesBegin`, `FragmentAfterHost`, `PortValue`, `StopLoses`, `EarlyFunctorsWait`, `QuitBeforeLoop`,
`NoPlacesNoProgress`, `LocalRoundTrip`, `ShutOnce`, `LateSends`, `PollPoller.UpdateChannel`, `ReenabledIsIgnored`, `StaleKey`,
`MaskedThrough`, `LongControlFrames`, `MessageInParts`).

- HttpExecute.HttpParser.Execute: one buffer must be shorter than 4 GB less the header limit, because the 32-bit nread would wrap in the value skip.
- HttpExecute.HttpParser.Execute: when it reports another error, a bad Content-Length say, an overflow before it in the same value may go unreported.
- HttpExecute.HttpParser.Feed: runs that leave HTTP for an upgrade stop at one call; what the caller does with the rest is not modelled.
- HttpHeaders.ValueRecognised: Connection values with commas are treated by OptionsRecognised.
- HttpRequests.MessageRun: folded header values (obs-fold, section 3.2.4 of RFC 7230) are covered by Execute alone, and so is an upgrade whose request has a body; CR and LF before a request are the subject of BlankLines.
- Callbacks of http_parser that fail or pause the parser, and the non-strict build.
- HttpResponses.ResponseRun: responses that upgrade, or whose body the callback skips, are covered by Execute alone.
- UrlParser.HttpParserUrl.ParseUrl: URLs of 65536 bytes or more, whose 16-bit offsets would wrap; the memory after the buffer, which strtoul may read, is a parameter.
- UrlParser.UrlLayout: which URLs are accepted is stated by ParseUrl in terms of the two automata only, not as a grammar.
- UrlParser.UrlRoundTrip: zone identifiers in IPv6 addresses are left to UrlLayout; a port at the very end needs a non-digit after the buffer.
- AsyncLogging.AsyncLog.Append: lines of a whole buffer or more, which the source drops, are dropped here too, but buffers are modelled by content: each has one owner at a time, so aliasing is not at issue.
- Memory models and unsynchronised flags: every access is an atomic step.
- TcpConnection.RunCore: the reading side and the code of the callbacks are left out; write() on a shut write side answers EPIPE.
- TimerQueue.RunOk: intervals are integer microseconds; the loss of precision of a floating-point interval is not modelled. Timer callbacks are any sequence of additions and cancellations.
- TimeZone.LocalRoundTrip: gmtime and timegm are the file's own UTC functions; zones that do not alternate between standard and daylight time are covered by FindsLast only. Reading zone files is left out but for the making of transitions.
- Calendar.DateRoundTrip: dates before 4800 BC in the proleptic calendar, where the truncating divisions of the formula no longer agree.
- ProtobufCodec.FramesRoundTrip: serialisation, parsing and adler32 are parameters; parsing must invert serialisation. Lengths from 2 GB on, where the 32-bit length wraps, are excluded by Sendable and TooLarge.
- Pollers.PollPoller.RemoveChannel: the entry of the channel must be negated, as the assertions of the source demand; that is so unless the channel was first registered without any interest. The source leaves its index as it was, so a removed channel must not be used again: that is the precondition of UpdateChannel.
- Sockets, Acceptor, InetAddress, TcpServer, TcpClient, Connector, signal handling: system calls and callback wiring. read, write, epoll, poll and timerfd are parameters with stated results.
- HTTPCodec, HTTPHandler, WebsocketHandler and HTTPServer: glue above the parsers; WebsocketHandler drops bytes the parser did not take, where ReceiveAll shows them again.
- ConvertMessageToFrame, the WebSocket handshake and SHA-1, zlib and gzip wrappers, log files and formatting, ProcessInfo, Inspector, thread wrappers.
- Base64.Decode: texts of 2 GB or more, whose length the source keeps in an int.
