# A verified model of the HTTP server, its worker pool and its logger

This project models the core of a small C++ HTTP server and proves what its parts promise over
all inputs and all runs.

* **Asynchronous log pipeline** (`LogBuffer`, `LooperModel`, `LooperTheorems`, `Loggers`). The
  double-buffer looper is a step system with an explicit mutex holder, a program counter for every
  producer, for the consumer and for the caller of `stop`, spurious wake-ups, and the two growing
  buffers. The buffer is also a class over an array, and the critical sections of the looper are
  methods proved to take exactly the steps of the step system.
* **Progress under endless arrivals** (`Fairness`, `LooperLiveness`, `PushLiveness`, `StopLiveness`,
  `PoolLiveness`, with `ScriptedRuns` for runs that starve a thread). Infinite runs of both step systems
  under a strongly fair scheduler and mutex.
* **Worker pool** (`ThreadPool`, with `Counting`). Mutex, condition variable signalled after unlocking,
  predicate evaluated again after every wait, spurious wake-ups.
* **HTTP** (`Utill`, `RequestFraming`, `Response`, `Protocol`, `CallBack`). `Utill` reads lines, `RequestFraming`
  says what a byte stream spells, `Response` says which reply a file system of files and directories
  gives. `Protocol` is the `EndPoint` object whose methods fill the request and response fields in
  place; each method is proved against these two specifications. `CallBack` serves one connection and
  says which bytes a client gets for the bytes it sent, for pages and for CGI programs.
* **CGI exchange** (`CgiExchange`, `CgiServer`). Server and child as a two-process system over two
  bounded pipes with arbitrary partial writes and crashes. The parent's write loop, read loop and wait,
  and the child's read loop, are methods; the parent's calls take the steps of the system.
* **Rolling file sink** (`RollingSink`) and, joined with the looper, the way from `push` to the files
  (`LogToDisk`).
* **Log patterns** (`Format`), **directory creation** (`DirectoryTree`), **space trimmer**
  (`SpaceTrimmer`).

Runs are lists of steps from an initial state. Progress is stated twice: every step a thread takes on
its own decreases a measure, and from any reachable state, once no new call and no spurious wake-up
arrives, every schedule comes to rest, fair or not. While calls keep arriving, what was appended or
pushed still gets through on every fair run; the cases in which a thread can wait forever are named
below.

## Where the code does less than one would expect

Each of these is kept as the code has it. In parentheses: the exact condition; a concrete failing case.

* `stop` stores its flag outside the mutex, although its comment says that it wakes the thread. From
  the moment the flag is set it returns under every schedule exactly when the consumer is not between
  its wait predicate and its wait, or a producer that wants the mutex will wake the consumer in its
  place (`StopReturnsExactly`; `StopCanHang`).
* While pushes keep arriving `stop` can wait forever even when its notification arrived: on a fair run it
  returns exactly when the consumer at some later moment finds the buffer empty at its exit test, and in
  particular when the pushes end (`StopReturnsIffFoundEmpty`, `StopReturnsWhenQuiet`; `StopStarves`).
* In safe mode a push can wait forever while others go on pushing, although the consumer keeps emptying
  the buffer; only others that append again and again can do that to a record of at most 1 MiB
  (`PushWaitsOnlyForOthers`; `SafePushStarves`).
* A lone CR directly before a line feed is read as one line end, so a request that ends a line with CR
  and goes on with LF is not recovered (`ReceiveOfEncode`; `LoneCrLosesRequest`, `LoneCrLosesHeaders`).
* A reply announces a wrong length exactly when the request makes the server send a directory as a file
  (`AdvertisedLengthIsExact`; `ErrorDirectoryLies`, `HomeDirectoryLies`).
* A regular file in the place of a directory keeps `creat_dircetory` from making that prefix
  (`CreatesEveryPrefix`, `CreatesThePath`; `FileInTheWay`).
* A pool without any worker thread never serves what is pushed, and `InitThreadPool` reports but does
  not undo a partial creation: the first thread alone decides (`FirstThreadDecides`;
  `UnservedWithoutWorker`).
* Literal text after the last directive of a log pattern is dropped: a pattern prints all it spells
  exactly when it is empty or ends in a directive (`PrintsCompletely`; `LosesItsEnd`).
* A CGI child that reads to end of file never finishes: a schedule finishes exactly when the child counts
  its input, does not exec or is already gone (`FinishesExactly`; `EofChildHangs`).
* `GetQueryString` does not look at the result of `read`: what it appends is a piece of its input exactly
  when as many bytes are there as were announced, and past the end the last byte is appended again
  (`DeliveredExactly`; `LastByteRepeats`).
* `ReadLine` returns the size of the whole out-string: the number of characters it read, as its comment
  says, exactly when that string was empty, as it is in all its callers (`ReadLine`; `CountsOldText`).

## Model

| member | source | states |
|---|---|---|
| LogBuffer.Buffer.Push | http/logs/buffer.hpp:20-35 | the record goes behind the unread bytes, in an array that has grown as needed; nothing already in the buffer changes |
| LogBuffer.Buffer.EnsureEnoughSize | http/logs/buffer.hpp:85-99 | afterwards the record fits; contents and both indices are unchanged, and the capacity is kept when there is room, twice the old one plus the record below 5 MiB, and 1 MiB more plus the record from there on |
| LogBuffer.Buffer.MoveWriter | http/logs/buffer.hpp:102-106 | advances the write index; the source's assertion is the precondition, and `Push` always meets it |
| LogBuffer.Buffer.MoveReader | http/logs/buffer.hpp:59-63 | drops bytes from the front of the unread part and nothing else |
| LogBuffer.Buffer.Swap | http/logs/buffer.hpp:71-76 | the two buffers trade arrays and contents; no byte is copied |
| LogBuffer.Buffer.Reset | http/logs/buffer.hpp:65-69 | empties the buffer and keeps its array |
| LogBuffer.Buffer.Empty | http/logs/buffer.hpp:78-81 | true exactly when no byte is unread |
| LogBuffer.Buffer.ReadAbleSize | http/logs/buffer.hpp:44-48 | the number of unread bytes |
| LogBuffer.Buffer.WriteAbleSize | http/logs/buffer.hpp:50-55 | what still fits behind the write index without growing |
| LogBuffer.GrowthBound | http/logs/buffer.hpp:85-99 | after any calls on two fresh buffers, swaps included, each array is exactly 1 MiB or smaller than three times the most it ever held, and doubled at most three times |
| LooperTheorems.ArraysStayInProportion | http/logs/buffer.hpp:85-99 | in both modes and every reachable state of the looper each array is 1 MiB or smaller than three times the most the producer buffer held so far in that run |
| LooperModel.StepKeepsInv | http/logs/looper.hpp:36-84 | every step of every thread keeps mutual exclusion, whole records in both buffers, exact delivery per sink, the sizes of safe mode, and what each waiting thread knows |
| LooperTheorems.AsyncRefinesSync | http/logs/looper.hpp:42-84 | in every reachable state and for every sink: delivered bytes, then the batch in flight, then the producer buffer are exactly what `SyncLogger` writes for the same records in mutex order |
| LooperTheorems.NoRecordIsSplit | http/logs/looper.hpp:74-80 | every call to a sink carries whole records, and what was delivered is a prefix of all records in mutex order |
| LooperTheorems.DrainedAtExit | http/logs/looper.hpp:65-69 | at the step with which the consumer leaves its loop both buffers are empty and every sink has every byte accepted until then |
| LooperTheorems.SafeModeNeverResizes | http/logs/looper.hpp:47-51 | in safe mode both arrays stay at 1 MiB in every reachable state, a record is appended only if it fits, and right after a swap 1 MiB is free |
| LooperTheorems.NeverBothBlocked | http/logs/looper.hpp:45-53 | while the mutex is free, a sleeping consumer has nothing to fetch, a blocked producer has no room, and both at once is possible only with a record above 1 MiB |
| LooperTheorems.InternalStepDecreases | http/logs/looper.hpp:36-84 | every step a thread takes on its own decreases a well-founded measure |
| LooperTheorems.StuckMeansSettled | http/logs/looper.hpp:36-84 | when no thread can move, the mutex is free, the consumer has exited or sleeps on empty buffers, only records above 1 MiB wait for a sleeping consumer, and every sink has every batch |
| LooperTheorems.EveryScheduleDelivers | http/logs/looper.hpp:36-84 | from any reachable state every schedule comes to rest; there the sinks have everything appended except what an exited consumer left behind, and with a living consumer nothing is left and only oversized records wait |
| LooperLiveness.WhatIsAppendedArrives | http/logs/looper.hpp:42-84 | on every fair infinite run, whatever keeps being pushed: what was appended by any moment at which the consumer has not exited is eventually a prefix of what every sink was handed |
| LooperLiveness.MutexComesFree | http/logs/looper.hpp:42-78 | on every fair infinite run the mutex is given back again and again |
| PushLiveness.PushGetsThrough | http/logs/looper.hpp:42-54 | in unsafe mode every producer inside `push` comes to copy its own record into the buffer, however many others push |
| PushLiveness.PushReachesSinks | http/logs/looper.hpp:42-84 | from the call to the sinks: in unsafe mode that record, with everything before it, is eventually part of what every sink was handed, unless the consumer has exited when it is copied |
| PushLiveness.PushWaitsOnlyForOthers | http/logs/looper.hpp:45-53 | in either mode, while the consumer lives, a push of at most 1 MiB gets through unless others append again and again: for every moment either it copies its record or another producer appends at or after that moment |
| PushLiveness.SafePushStarves | http/logs/looper.hpp:47-51 | and that can happen: a fair infinite run in safe mode, with a consumer that never exits, on which a push of 1 MiB never gets through |
| LooperTheorems.StopIsLostExactlyWhenDozing | http/logs/looper.hpp:36-41 | after the notification of `stop` the consumer can still fall asleep if and only if it was between its predicate and its wait when it was notified |
| LooperTheorems.StopReturnsExactly | http/logs/looper.hpp:36-54 | once `stop` has set its flag, it returns under every schedule if and only if the consumer is not between its predicate and its wait, or a producer that wants the mutex has a record that fits |
| LooperTheorems.StopCanHang | http/logs/looper.hpp:65-71 | a concrete run after which `stop` waits forever |
| LooperTheorems.StopReturnsUnlessLost | http/logs/looper.hpp:36-41 | at rest after a stop, `stop` has returned and the consumer has exited, unless the notification came in that window |
| StopLiveness.StopReturnsIffFoundEmpty | http/logs/looper.hpp:36-71 | on every fair infinite run, whatever keeps being pushed: once the flag is set, `stop` returns if and only if the consumer has exited or at some later moment is at its exit test over an empty buffer |
| StopLiveness.StopReturnsWhenQuiet | http/logs/looper.hpp:36-71 | on every fair infinite run on which the notification is not lost and from some moment on no byte is appended, `stop` returns |
| StopLiveness.StopStarves | http/logs/looper.hpp:65-71 | a fair infinite run, from every start with one producer, on which the notification arrives and `stop` still never returns |
| Loggers.SyncLogger.Log | http/logs/logger.hpp:180-189 | every sink gets the record once, in every position of the list |
| Loggers.SyncRunAppends | http/logs/logger.hpp:180-189 | a sequence of such calls appends exactly these records to each sink |
| Loggers.AsyncLooper.HasRoom | http/logs/looper.hpp:47-49 | decides the wait predicate of the step system |
| Loggers.AsyncLooper.Append | http/logs/looper.hpp:50-51 | takes exactly the producer's appending step of the step system |
| Loggers.AsyncLooper.SwapBuffers | http/logs/looper.hpp:74-74 | takes exactly the consumer's swapping step |
| Loggers.AsyncLooper.RealLog | http/logs/logger.hpp:209-217 | the whole unread batch goes to every sink, once |
| Loggers.AsyncLooper.ResetConsumerBuffer | http/logs/looper.hpp:82-82 | takes exactly the consumer's resetting step |
| Loggers.DeliveryIsRealLog | http/logs/looper.hpp:80-80 | the consumer's delivery steps together do what `reallog` does to the sinks and nothing else |
| ThreadPool.StepKeepsInv | http/ThreadPool.hpp:83-128 | every step keeps mutual exclusion, first-in first-out order, one owner per popped task, and the counting invariant behind the wake-ups |
| ThreadPool.NoLostWakeup | http/ThreadPool.hpp:83-128 | in every reachable state, while a worker is blocked, each queued task is covered by a signal still to be sent or a worker about to test the queue |
| ThreadPool.TasksServedOnceInOrder | http/ThreadPool.hpp:116-128 | what was pushed is what was popped followed by the queue, and each popped task is served or with exactly one worker |
| ThreadPool.PopIsAlwaysSafe | http/ThreadPool.hpp:124-128 | a worker about to pop holds the mutex and the queue is not empty |
| ThreadPool.RestMeansAllServed | http/ThreadPool.hpp:83-122 | at rest every pushed task was served if and only if a worker exists or nothing was pushed |
| ThreadPool.FirstThreadDecides | http/ThreadPool.hpp:101-114 | for the pool as `InitThreadPool` leaves it: at rest every pushed task was served if and only if the first thread was created or nothing was pushed |
| ThreadPool.UnservedWithoutWorker | http/ThreadPool.hpp:116-122 | a concrete run without workers whose task stays in the queue for good |
| ThreadPool.OwnStepDecreases | http/ThreadPool.hpp:83-122 | every own step of a thread decreases a well-founded measure |
| ThreadPool.EveryScheduleServesAll | http/ThreadPool.hpp:83-122 | with a worker, every schedule from every reachable state comes to rest with an empty queue and every task served |
| PoolLiveness.WhatIsPushedIsTaken | http/ThreadPool.hpp:83-128 | on every fair infinite run with a worker, whatever keeps being pushed: what was pushed by any moment is eventually taken, in order |
| PoolLiveness.WhatIsTakenIsServed | http/ThreadPool.hpp:95-97 | on every fair infinite run a worker that has taken a task comes to process it, and its own step at that moment adds exactly this task to what is served |
| PoolLiveness.WhatIsPushedIsServed | http/ThreadPool.hpp:83-128 | on every fair infinite run with a worker: everything pushed by any moment is eventually served, each task as often as it was pushed, also when task numbers repeat |
| PoolLiveness.SomeoneWakes | http/ThreadPool.hpp:91-121 | on every fair infinite run a waiting task finds some worker awake at some moment |
| ThreadPool.Pool.InitThreadPool | http/ThreadPool.hpp:101-114 | reports success exactly when all threads were created; otherwise exactly those before the first failure exist |
| ThreadPool.Pool.TaskQueueIsEmpty | http/ThreadPool.hpp:56-59 | true exactly for the empty queue |
| ThreadPool.Pool.PushTask | http/ThreadPool.hpp:116-122 | takes the enqueuing step: the task goes to the back |
| ThreadPool.Pool.PopTask | http/ThreadPool.hpp:124-128 | takes the popping step: the front task leaves, the rest keeps its order |
| Utill.ReadLine | http/Utill.hpp:16-51 | appends one line to the out-string and leaves the stream after it; on end of stream or error it says so and has consumed everything; the number returned is that of the line read if and only if the out-string was empty |
| Utill.CountsOldText | http/Utill.hpp:49-50 | a concrete call that reads two characters and returns four |
| Utill.LineIsNormalForm | http/Utill.hpp:16-51 | a successful read hands out the normal form of what it consumed, one final LF and no CR, and never cuts a CRLF |
| Utill.NoLineExactly | http/Utill.hpp:19-48 | a read fails exactly on a stream without CR and LF, so a lone CR at the end still ends a line |
| Utill.ReadsAreNormalForm | http/Utill.hpp:16-51 | any number of successful reads gives single lines whose concatenation, with the normal form of the rest, is the normal form of the stream |
| Utill.NormaliseSplit | http/Utill.hpp:24-36 | normalising can be done piece by piece at every cut that is not inside a CRLF |
| Utill.CutString | http/Utill.hpp:53-63 | found exactly when the separator occurs, then split at its first occurrence; otherwise the out-parameters keep their values |
| RequestFraming.HeaderBlockOf | http/Protocol.hpp:141-171 | header lines with any line ends are read back exactly, leaving exactly the rest, if and only if no lone CR stands before a line feed |
| RequestFraming.ReceiveOfEncode | http/Protocol.hpp:486-495 | a request's encoding gives back request line, headers and body and consumes exactly its bytes, if and only if no lone CR merges |
| RequestFraming.LoneCrLosesRequest | http/Utill.hpp:24-36 | a concrete request that is not received: its line ends with CR and the blank line with LF |
| RequestFraming.LoneCrLosesHeaders | http/Utill.hpp:24-36 | a concrete header block that is not found for the same reason |
| RequestFraming.PostRoundTrip | http/Protocol.hpp:120-251 | a POST whose first Content-Length line carries the decimal length of its body, with any mix of CRLF and LF, is recovered exactly |
| RequestFraming.BodylessRoundTrip | http/Protocol.hpp:205-251 | a POST without a Content-Length line, and any other method whatever its header lines, is received without a body and leaves everything behind the blank line |
| RequestFraming.ParseOfLine | http/Protocol.hpp:174-187 | parsing undoes printing a request line of three words, for any blanks between them and any case of the method |
| RequestFraming.AsksExactly | http/Protocol.hpp:174-187 | for every line: the method is its first word with a to z in capitals and the URI its second one, either possibly missing, with any of the six blanks around them and anything behind |
| RequestFraming.KeyOfLine | http/Protocol.hpp:190-202 | a header line has a key without a colon exactly when it starts with it, a colon and a blank; the value is what follows |
| RequestFraming.FirstKeyWins | http/Protocol.hpp:190-202 | of several lines with one key the first one gives the value |
| RequestFraming.FirstLengthWins | http/Protocol.hpp:190-221 | of several Content-Length lines the first one counts |
| Text.AtoiDecimal | http/Protocol.hpp:216-216 | reading a decimal number undoes printing it, also when a non-digit follows |
| Text.AtoiReads | http/Protocol.hpp:216-216 | a decimal number is read behind any blanks and one sign, with a minus as its negative |
| Text.DecimalIs | http/Protocol.hpp:403-407 | decimal printing puts one of the ten digits behind the print of the rest |
| Protocol.EndPoint.RecvHttpRequestLine | http/Protocol.hpp:120-138 | takes one line without its line end, or stops |
| Protocol.EndPoint.RecvHttpRequestHeader | http/Protocol.hpp:141-171 | collects exactly the header block up to the blank line, or stops exactly when there is none |
| Protocol.EndPoint.ParseHttpRequestLine | http/Protocol.hpp:174-187 | method, URI and version are the first three words, the method in upper case |
| Protocol.EndPoint.ParseHttpRequestHeader | http/Protocol.hpp:190-202 | for every key the map holds the value of its first header line, and no other keys |
| Protocol.EndPoint.IsNeedRecvHttpRequestBody | http/Protocol.hpp:205-221 | the announced length is that of the first Content-Length line of a POST, and 0 otherwise |
| Protocol.EndPoint.RecvHttpRequestBody | http/Protocol.hpp:224-251 | takes exactly the announced number of bytes, and stops exactly when the stream is too short or the length negative |
| Protocol.EndPoint.RecvHttpRequest | http/Protocol.hpp:486-495 | the object ends up holding exactly the request the stream spells, or has stopped exactly when it spells none |
| Protocol.EndPoint.ProcessNonCgi | http/Protocol.hpp:379-388 | success with an open descriptor exactly when the path opens |
| Protocol.EndPoint.BuildOkResponse | http/Protocol.hpp:391-411 | the two header lines, with the length of the CGI output or of the file |
| Protocol.EndPoint.HandlerError | http/Protocol.hpp:414-435 | clears the CGI flag and holds the error page's reply, without headers when the page does not open |
| Protocol.EndPoint.BuildHttpResponseHelper | http/Protocol.hpp:438-473 | status line and headers of exactly the reply the fields spell; which bytes the four status lines are is `StatusLineIs` |
| Protocol.EndPoint.SplitUri | http/Protocol.hpp:515-540 | a GET with a question mark needs a child, its path is what stands before the first one and its query what follows; otherwise the path is the URI and the query empty, and only a POST needs a child |
| Protocol.EndPoint.ProcessCgi | http/Protocol.hpp:258-375 | starts a child for the request's path, method, query and body, and ends with the output and status of a finished exchange with exactly that child, or of a failed pipe or fork |
| Protocol.EndPoint.LocateResource | http/Protocol.hpp:542-592 | the resource under the web root with home page, executable bits, size and suffix, or not found; which file a path leads to is `LeadsToIs` |
| Protocol.EndPoint.FindSuffix | http/Protocol.hpp:583-592 | the end of the path from its last dot on, and `.html` exactly when it has no dot |
| Protocol.EndPoint.BuildHttpResponse | http/Protocol.hpp:498-608 | the fields end up holding exactly the specified reply for this site and request, where a CGI request gets an outcome its own child can have |
| Protocol.EndPoint.SendHttpResponse | http/Protocol.hpp:611-642 | the client receives status line, headers, blank line and body, each once and in order, also with short body sends |
| CallBack.HandlerRequest | http/Protocol.hpp:664-696 | end to end, for all bytes, sites, machines and schedules: a client whose bytes spell no request gets nothing, any other gets the specified reply to that request, with the outcome of a finished exchange with the child started for it, killed or not as reported |
| CallBack.EncodedIsAnswered | http/Protocol.hpp:664-696 | a request, encoded with any mix of CRLF and LF, has exactly the answers its parts have |
| CallBack.OtherMethodIsAnswered | http/Protocol.hpp:505-513 | from bytes to bytes: a request line whose first word is neither GET nor POST, in any case, has exactly one answer, `HTTP/1.0 400 ` with the error page |
| CallBack.MissingIsAnswered | http/Protocol.hpp:542-581 | from bytes to bytes: a GET or POST of something the site does not have, with or without a query, has exactly one answer, `HTTP/1.0 404 Not Found` with the error page |
| CallBack.PageIsAnswered | http/Protocol.hpp:379-473 | from bytes to bytes: a GET without a query of something without executable bits has exactly one answer, the page it leads to with type and length, not found when that does not open, and a length without bytes when it is a directory |
| CallBack.PlainGetIsAnswered | http/Protocol.hpp:486-642 | word by word: a GET for a plain page, with any clean headers and any mix of CRLF and LF, has exactly one answer: the success line, the type by the letters behind the last dot, the length, a blank line and the page |
| CallBack.CgiIsAnswered | http/Protocol.hpp:254-376 | from bytes to bytes for CGI, as an equivalence: a POST, a GET with a query and a GET of something executable start the file their path leads to with this method, the text behind the question mark and the body; without a kill a client reads the success with the program's output on them when it exits with zero and `HTTP/1.0 400 ` otherwise, provided the child ends by itself; `HTTP/1.0 500 ` comes exactly from a kill or a failed pipe, not found exactly from a failed fork |
| CallBack.PostToProgramIsAnswered | http/Protocol.hpp:120-376 | the same equivalence for a POST whose first Content-Length line carries the length of its body; its URI is the path and its query empty |
| Response.StatusLineIs | http/Protocol.hpp:443-448 | the four status lines as the bytes a client reads |
| Response.TypeIs | http/Protocol.hpp:42-59 | the type a client reads is that of the path's end: css, js, jpg and xml behind a dot, and text/html for everything else |
| Response.SuffixIs | http/Protocol.hpp:583-592 | the suffix starts at the last dot, and is `.html` without one |
| Response.SplitsIs | http/Protocol.hpp:515-535 | path, query and need of a child for every GET and POST, in terms of the first question mark |
| Response.LeadsToIs | http/Protocol.hpp:542-570 | which file and whose data a path leads to: the home page for a final slash or a directory, the directory's own data when it has no home page |
| Response.AdvertisedLengthIsExact | http/Protocol.hpp:391-473 | for every request: no length is announced exactly when it is answered with an error and there is no error page, and an announced length is that of the body sent if and only if the request does not make the server send a directory as a file |
| Response.ErrorDirectoryLies | http/Protocol.hpp:414-435 | a concrete site whose missing page is announced with 4096 bytes and sent with none |
| Response.HomeDirectoryLies | http/Protocol.hpp:557-573 | a concrete site whose home page is announced with 512 bytes and sent with none |
| Response.ExactOnOrdinarySites | http/Protocol.hpp:547-574 | with executable directories and an error page that is none, every announced length is exact |
| Response.PlainPageIsServed | http/Protocol.hpp:515-604 | a GET for a readable page without executable bits, by name or as a directory's home page, succeeds with exactly the page and its length |
| Response.StatusDiscipline | http/Protocol.hpp:438-473 | only the four known statuses occur, every non-success has the CGI flag cleared, every success announces a length, and a reply without headers is an error without an error page |
| Response.ClientReadsReply | http/Protocol.hpp:611-642 | reading header lines behind the status line gives back exactly the reply's headers and then exactly its body |
| CgiExchange.ExchangeIsExact | http/Protocol.hpp:335-374 | whenever the parent is done it knows how the child ended; a child that ran to its end got exactly the body and the parent exactly its output |
| CgiExchange.CgiReplyIsProgramOutput | http/Protocol.hpp:254-376 | a request that starts a child, by method, by query or by executable bits, is answered with success exactly when the child exited with zero; then body and announced length are those of the program's output on exactly the request body |
| CgiExchange.StuckMeansDone | http/Protocol.hpp:335-374 | with a counting child, or one already gone, the exchange stops only when the parent is done: neither pipe can deadlock |
| CgiExchange.StepDecreases | http/Protocol.hpp:345-354 | every step except a crash decreases a well-founded measure |
| CgiExchange.EveryScheduleFinishes | http/Protocol.hpp:335-374 | for any capacities, partial writes, crashes and scheduling the exchange with a counting child finishes |
| CgiExchange.WriteEndOutlivesChild | http/Protocol.hpp:355-373 | in every reachable state the parent still has its write end unless the child is gone, so no child ever sees end of file |
| CgiExchange.ReadingToEofNeverFinishes | http/Protocol.hpp:356-373 | a child that reads to end of file instead never lets the parent finish, because the parent closes its end only after waiting |
| CgiExchange.FinishesExactly | http/Protocol.hpp:335-374 | from every reachable state a schedule without further crashes lets the parent finish if and only if the child counts, does not exec or is already gone |
| CgiExchange.EofChildHangs | http/Protocol.hpp:345-373 | a concrete run that is stuck with the whole body read and the parent reading |
| CgiServer.WriteBody | http/Protocol.hpp:340-349 | the write loop ends by reachable steps with the parent reading, the whole body written or the child gone |
| CgiServer.ReadToEof | http/Protocol.hpp:350-354 | the read loop terminates for every child whose calls return, and appends exactly what the parent received |
| CgiServer.ProcessCgi | http/Protocol.hpp:335-374 | ends after a run of the step system with exactly that run's status and output, which on success is the program's output on the body |
| CgiServer.OutcomesOf | http/Protocol.hpp:355-370 | exactly the outcomes a started child can have: without a kill the one its program has on this input, provided it ends by itself at all, and with a kill a server error |
| CgiServer.Launched | http/Protocol.hpp:273-374 | a failed pipe gives a server error, a failed fork not found, and a started child the outcome of a finished exchange, in which it was killed or not as reported |
| CgiExchange.DeliveredExactly | http/cgi/comm.hpp:18-24 | what `GetQueryString` appends is a piece of its input if and only if as many bytes are there as were announced; every byte beyond repeats the last one |
| CgiExchange.LastByteRepeats | http/cgi/comm.hpp:18-24 | a concrete input whose last byte is appended twice |
| CgiExchange.GetQueryString | http/cgi/comm.hpp:8-31 | GET takes the environment's query; POST appends exactly the announced number of bytes: those of the stream, and past its end the last one again |
| Format.Formatter.ScanPattern | http/logs/format.hpp:172-232 | succeeds exactly when the pattern scans, with exactly its rules |
| Format.Formatter.ScanDirective | http/logs/format.hpp:203-231 | reads one directive with its key and sub-rule and stops right after it, or fails exactly on a dangling one |
| Format.Formatter.ScanSubRule | http/logs/format.hpp:214-228 | reads up to the first closing brace |
| Format.Formatter.ParsePattern | http/logs/format.hpp:172-240 | rejects, aborts or leaves exactly the compiled items |
| Format.Formatter.FormatMsg | http/logs/format.hpp:142-157 | prints the items' texts in order |
| Format.CompilePreservesMeaning | http/logs/format.hpp:142-268 | compiled items print what a direct token-by-token reading of the pattern prints, for every message; rejection and abort happen exactly when there is no reading or an unknown directive |
| Format.DefaultPatternPrints | http/logs/format.hpp:134-157 | what the default pattern prints for every message: time, thread, logger, file, line and level in brackets, a tab, the message and a line feed |
| Format.LevelsPrint | http/logs/level.hpp:31-42 | what `%p` prints for each of the seven levels |
| Format.PrintsCompletely | http/logs/format.hpp:175-240 | compiled items print a prefix of what the pattern spells, and all of it if and only if it is empty or ends in a directive |
| Format.LosesItsEnd | http/logs/format.hpp:196-201 | a concrete pattern whose last character is never printed |
| Format.ParseOfPrint | http/logs/format.hpp:175-232 | parsing undoes printing for every rule list in normal form |
| Format.ParsedIsNormal | http/logs/format.hpp:175-232 | what the parser produces is in normal form, so printing and parsing again changes nothing |
| Format.RejectedExactly | http/logs/format.hpp:204-225 | a pattern is rejected exactly when after a readable prefix it is a lone percent sign or an unclosed sub-rule |
| RollingSink.RollBySizeSink.constructor | http/logs/sink.hpp:64-75 | starts on one fresh file name with counter 0 |
| RollingSink.RollBySizeSink.Log | http/logs/sink.hpp:77-99 | rolls exactly when the limit is reached, then appends the message to the current file; no other file changes |
| RollingSink.RollBySizeSink.CreatNewFile | http/logs/sink.hpp:103-122 | the name is the base name, the decimals of year, month, day, hour, minute and second, a dash, the counter and `.log`; the counter moves on |
| RollingSink.RollingIsLossless | http/logs/sink.hpp:77-122 | for every clock and every list of calls the files' messages in order are the calls' messages, none split; every file holds what it held before plus exactly its messages; other files stay; the i-th file has the base name, some time and the number i in its name |
| RollingSink.ClosedFilesAreFull | http/logs/sink.hpp:80-98 | every closed file reached the limit and, with a positive limit, was below it before its last message |
| RollingSink.FileNamesNeverRepeat | http/logs/sink.hpp:103-122 | no two files of one sink share a name, whatever the clock does |
| RollingSink.NamesDiffer | http/logs/sink.hpp:118-121 | names with different counters differ for any two stamps |
| RollingSink.StampsCollide | http/logs/sink.hpp:112-117 | the unpadded stamp alone would not do: two different days share one |
| LogToDisk.FilesHoldWhatWasAccepted | http/logs/sink.hpp:77-122 | for every run, clock and size limit, a rolling sink fed by the looper: every file holds what it held before plus whole records only, the files' records in order are those of the delivered batches, a prefix of all accepted records in mutex order, and the i-th file has the configured base name and the number i |
| LogToDisk.FilesAreCompleteAtExit | http/logs/looper.hpp:65-84 | and when the consumer leaves its loop they are all accepted records, up to records without a byte |
| DirectoryTree.PathOfIsPrefix | http/logs/utill.hpp:44-54 | the path is the name up to its last slash or backslash, or a dot when there is none |
| DirectoryTree.Disk.CreatDirectory | http/logs/utill.hpp:58-83 | the loop leaves exactly the file system of one round per separator-terminated prefix and a last mkdir for an unterminated piece |
| DirectoryTree.Disk.EnsureParents | http/logs/utill.hpp:62-82 | the rounds run over every separator-terminated prefix, shortest first, and stop behind the last separator |
| DirectoryTree.CreatesEveryPrefix | http/logs/utill.hpp:58-83 | afterwards every slash-terminated prefix is a directory if and only if no regular file stands in its place; then every mkdir on a prefix had its parent, and nothing existing is ever lost |
| DirectoryTree.CreatesThePath | http/logs/utill.hpp:58-83 | afterwards the path itself and each of its prefixes that ends in a slash or a backslash is a directory, if and only if no regular file stands in the place of one of them |
| DirectoryTree.FileInTheWay | http/logs/utill.hpp:76-81 | a concrete file system in which a regular file keeps a prefix from becoming a directory |
| DirectoryTree.FileNameDirectoriesExist | http/logs/utill.hpp:44-83 | creating the path of a file name makes every directory the name mentions, if and only if no regular file is in the way |
| SpaceTrimmer.TrimEndIs | http/cgi/include/m_string.h:307-309 | byte-by-byte trimming finds the one length with only spaces behind it and no space last |
| SpaceTrimmer.Uint8korrIsSpaces | http/cgi/include/byte_order_generic.h:56-69 | the eight-byte word equals the space word if and only if all eight bytes are spaces |
| SpaceTrimmer.WordIsSpaces | http/cgi/include/m_string.h:283-289 | the same for an aligned word of either size |
| SpaceTrimmer.TrimBytes | http/cgi/include/m_string.h:326-328 | the byte loop finishes the trimming from any point with only spaces behind it |
| SpaceTrimmer.SkipTrailingSpace | http/cgi/include/m_string.h:317-329 | the eight-byte variant returns the byte-by-byte result for every string |
| SpaceTrimmer.TrimWords | http/cgi/include/m_string.h:303-305 | the word loop stays between the word boundaries and skips only spaces |
| SpaceTrimmer.SkipTrailingSpaceAligned | http/cgi/include/m_string.h:280-310 | the aligned variant returns the byte-by-byte result for every string, alignment and word size |

## Left out

- Sockets, accept loop, listen setup, signal handling and singleton getters: a connection is a finite byte sequence with an ending, the accept loop is arbitrary calls of `PushTask`.
- fork, execl, putenv, dup2 and descriptors inherited by other children: the CGI exchange keeps two byte channels, the announced length and the exit status; a machine says for every call whether a child starts and which program it runs; waitpid is taken to succeed.
- CgiServer.ReadToEof: a call that waits is taken to return, at the latest when the child is killed; whether it does without that is `FinishesExactly`.
- Integer widths: buffer sizes below 2^63, stream lengths, header values and file sizes below 2^31, and no wrap-around of the file counter.
- Failing sends: status line and header sends are complete, body sends may be short but make progress; the source keeps a failed send in an unsigned variable.
- CgiExchange.GetQueryString: requires a non-negative announced length, because a negative one never counts down to zero; the server itself never passes one on.
- RequestFraming.TakeBody: a negative length is a failure, as it is on every finite stream shorter than 2^31 bytes.
- Loggers.AsyncLooper.Append: the class covers the critical sections; locking, waiting and the loop around them are in the step system.
- ThreadPool.Pool.PushTask: covers the critical section; locking and signalling are in the step system, where a signal that wakes several workers is one wake-up followed by spurious ones.
- Construction of the looper: the thread is started before all fields are initialised; the model starts from a constructed object.
- Destruction: `stop` is called once, and nobody destroys a logger while producers are inside `push`.
- Records pushed after the consumer has exited: they stay in the producer buffer, where `AsyncRefinesSync` counts them, and are never delivered.
- LogBuffer.GrowthBound: stated over lists of calls on the two buffers as values; the class methods are proved equal to these calls one by one.
- strftime, formatted payloads, thread ids and clocks: opaque text and inputs.
- Opening files in the sinks is taken to succeed, and directories are created separately in `DirectoryTree`; permissions, symbolic links and file systems without a root are not modelled.
- An `open` that returns descriptor 0: the error path treats it as a failure, the model has no descriptor numbers.
- The log calls inside the modelled code, level filtering, builders, the sink factory and the logger manager: single-branch plumbing.
- The CGI programs themselves and the rest of the bundled MySQL headers: declarations, tables and thin wrappers.
