# A verified model of ft_webserv

`ft_webserv` is a small HTTP/1.1 server: a configuration file is compiled into one `PortConfig` per
port, and each port is served by a `poll` loop that accepts connections, reads requests, routes them,
starts CGI programs and answers. This project models the parts of it that carry hard properties, and
proves them in Dafny 4.11:

* the **poll loop** with its deferred deletion, one-slot pending accept and CGI pipes, under a kernel that
  answers as it likes (`PollerState`, `PollerInvariant`, `PollerRounds`, `PollerOrphans`, `PollerRuns`,
  `PollerAnswers`, `PollerBytes`, `PollerClients`, `PollerFatalRun`, `PollerRequests`, `PollerService`, `Poller`);
* the **request parser** and the **chunked decoder** (`Request`, `RequestSpec`, `RequestRoundTrip`, `Chunked`);
* the **configuration compiler**: tokenizer, stack machine and option parsers (`Tokenizer`, `ConfigMachine`,
  `FileParser`, `ConfigSafety`, `ConfigFaults`, `ConfigRefusals`, `ConfigLines`, `ConfigComments`, `ConfigRoundTrip`);
* **grouping and routing** (`Routing`) and the **status pipeline** of a connection up to the choice of its response
  (`Pipeline`, `PipelineSafety`, `PipelineReplies`); `Witnesses` holds the concrete requests and configurations.

`CppStrings` and `Numbers` hold the `std::string` operations and the number readers the code relies on.
`dafny verify dfyconfig.toml` checks everything.

## How it is organised

Code that changes objects step by step is a class with methods (`Request`, `FileParser`, `PortConfig`,
`Connection`, `Poller`) or a method with loops. Each method is proved equal to a function on values, and what
the program promises is proved about those functions as lemmas. What the results say is spelt out in terms of bytes,
declared servers, files and events rather than of those functions.

Choices a reader should know:

* `std::string::npos` is -1, so that `find(c) + 1` is 0 and `find(c) + 2` is 1 when `c` is missing, as the
  unsigned wrap-around makes it in C++.
* Numbers read by streams are read as digits; the widths that matter are explicit: `int` for chunk sizes and
  status codes, `uint16_t` for ports, `uint32_t` arithmetic for body limits.
* The size variable of the chunked decoder is not initialised in the source; it is a parameter here. A size of
  2^31 - 1 would overflow the `chunked_size + 1` of the source, so chunks have at most 2^31 - 2 bytes.
* Chunk decoding is triggered by `Content-Encoding: chunked`, as in the code, not by `Transfer-Encoding` as in
  section 6.1 of RFC 9112.
* The pointers `server_block` and `route` of the configuration compiler are indices into arenas, so a pointer
  that is still set from an earlier block keeps naming the same object. Using one that was never set, taking
  from an empty token queue and reading a string past its end is the outcome `Fault` (`Undefined` in an option
  parser). A `MappingFailure` is `Reject`; its message is not kept.
* File-system answers (`FileSystem`, `Disk`) and the kernel's answers (`Answer`) are parameters.
* The kernel of the poll loop is assumed to hand out descriptors that are not open, to let `accept` and `pipe`
  succeed, to report writability only where it was asked for, and hang-ups only for client sockets: the server
  itself keeps the write end of every CGI pipe open, and the listener does not hang up. `waitpid` returns and `send`
  raises no signal.
* A path that opens for reading is a file that can be read to its end. (A directory opens too; whether reading one
  raises an exception depends on the C++ library.)

Where the code does not do what one would expect, the exact condition is proved, with an input that fails:

* The decoder loops for ever on a chunked body that is cut off; that its loop condition then holds after any number of
  passes is `SpinsExactly`. For chunks without extensions or leading zeros a prefix of the encoding does so exactly when
  it is not empty and nothing of the zero chunk has arrived (`TruncationSpinsExactly`, `TruncatedRequestSpinsExactly`).
  For all chunks it does so exactly when cut behind the chunk's size line, or inside it where the part that is there
  stalls (`CutBodySpinsExactly`, `MissingLastChunkSpins`); `CutExtensionDecodes` is a part that does not.
* A client that leaves while its CGI runs leaves the pipe's entry behind (`OrphansExactly`), and the loop looks up
  the missing connection when such a pipe has something to read (`HangupDuringCgiIsFatal`, `ScriptIsReal`).
* A request that parsing leaves at status 400 is answered through a route that was never set: one with more than one
  dot in its path, without a Host, or with an empty method or version (`ResponseFailsExactly`, `RefusedRequests`,
  `DottedRequestHasNoRoute`, `RefusedRequestIsFatal`).
* `return` takes any integer for a code. A request that its route redirects with a code outside the table of status
  codes ends in an exception that nobody catches, and one that is redirected with 204 is never answered. Only a
  redirect's code can lie outside the table (`HandledStatus`, `AcceptedServersArePaged`), so the condition is on the
  route and not on the status (`ResponseFailsExactly`, `RepliesExactly`, `RedirectIsAnsweredByItsCode`,
  `UnknownRedirectRaises`, `UnknownRedirectIsFatal`).
* Reading the last character of an empty target is undefined; the target is empty exactly when the path names a file
  without a slash in front (`EmptyTargetExactly`, `SlashlessRequestStrays`).
* With the exceptions of parsing and of `std::stoi` these are the causes that stop the poll loop (`RoundDiesExactly`),
  and for well-formed requests it is told from what was written which ones do (`ServedInVainExactly`). A run in which
  every writable client has sent nothing or a request that can be served, no client's socket fails and no client leaves
  its CGI running goes on (`ServableRequestsAreServed`).
* A client that shuts down its sending side before its request has been looked at is neither answered nor dropped, for
  as long as its socket stays readable without yielding anything (`HalfClosedClientStarves`).
* The body limit is compared modulo 2^32, on lengths that may be negative (`LimitIsExact`, `LimitWrapsAround`,
  `NegativeLengthIsRefused`, `WholeTurnIsAdmitted`).
* The configuration compiler does something undefined exactly when it meets a comment in the last line without a
  newline, a bracket or a directive for a server or a route that was never begun, or a path that is missing at the end
  of the file or too short (`FaultsExactly`, `OpenCommentFaults`, `EmptyNestFaults`).
* A file of comments alone is accepted with no server, an empty one is refused (`CommentsAloneAreAccepted`).
* A dotted address alone in `listen`, which the comment above the parser allows, is read as a port
  (`AddressAloneExactly`, `DottedAddressIsMisread`).
* The file-type check compares the whole `Content-Type` with `video` and `multipart`, because it looks for the
  slash in an empty string (`AcceptedRequests`, `VideoIsAccepted`).

## Model

| member | source | states |
|---|---|---|
| `PollerModel.Poller.FindCgiClient` | srcs/Poller.cpp:300-304 | The search finds the smallest descriptor among the clients that own the pipe, and none only if nobody owns it |
| `PollerModel.Poller.ReadCgiData` | srcs/Poller.cpp:294-326 | Only the owner of the pipe changes; when its CGI is done it is answered and pipe and client are dropped |
| `PollerModel.Poller.Serve` | srcs/Poller.cpp:95-108 | A writable client is parsed and routed; then a CGI is started once, or it is answered and dropped, or the cause is reported for which that cannot be done |
| `PollerModel.Poller.Respond` | srcs/Connection.cpp:115-133 | One answer is sent unless the status is 204; a status without an error page needs a route, and every status a reason phrase |
| `PollerModel.Poller.ErasePollFd` | srcs/Poller.cpp:182-190 | The search loop removes the first entry of a descriptor and nothing else |
| `PollerModel.Poller.DeletePollFds` | srcs/Poller.cpp:173-201 | On distinct entries, deferred deletion is the order-preserving filter of vector and map by the dropped descriptors, for every drop stack, and leaves the stack empty |
| `PollerModel.Poller.AddPollFds` | srcs/Poller.cpp:148-171 | The pending connection joins vector and map, then every CGI pipe not yet added gets its entry |
| `PollerModel.Poller.HandleEntry` | srcs/Poller.cpp:76-109 | Which handler an entry gets, and for which cause the loop does not go on |
| `PollerModel.Poller.PollOnce` | srcs/Poller.cpp:54-112 | The event counter always equals the ready entries still ahead, so the loop with its early exit handles every ready entry once, and the round is the one of the state machine |
| `PollerModel.Poller.PollPort` | srcs/Poller.cpp:42-116 | The loop is the round of the state machine repeated, and what has been sent is the same even when it stops |
| `PollerRounds.DeletionFilters` | srcs/Poller.cpp:173-201 | Popping the drop stack one by one equals filtering once, duplicates and unknown descriptors included |
| `PollerInvariant.AcceptKeeps` | srcs/Poller.cpp:81-83 | The pending-accept slot is empty when it is written, and accepting keeps the invariant |
| `PollerInvariant.ServingKeeps` | srcs/Poller.cpp:93-109 | Parsing, routing, answering or starting a CGI keeps the invariant |
| `PollerInvariant.ReadingCgiKeeps` | srcs/Poller.cpp:294-326 | Reading a CGI pipe and answering from it keeps the invariant |
| `PollerInvariant.EntryKeeps` | srcs/Poller.cpp:67-110 | Every handled entry keeps the invariant: vector, map, pipes, ids, drop stack and log in agreement |
| `PollerRounds.DispatchKeeps` | srcs/Poller.cpp:67-110 | A whole dispatch keeps the invariant, and the log in order even when it is cut short |
| `PollerRounds.DeletionSettles` | srcs/Poller.cpp:173-201 | After deletion no answered client and no finished CGI is left |
| `PollerRounds.AdditionSettles` | srcs/Poller.cpp:148-171 | After addition every CGI has its entry, behind its client's, and the loop invariant holds again |
| `PollerRounds.RoundEnds` | srcs/Poller.cpp:111-112 | A round ends with the clients it had, less the dropped ones, plus the accepted one |
| `PollerRounds.RoundKeeps` | srcs/Poller.cpp:52-113 | Every round keeps the loop invariant |
| `PollerRuns.RunKeeps` | srcs/Poller.cpp:52-113 | Every run keeps the loop invariant |
| `PollerRuns.VectorIsExact` | srcs/Poller.cpp:148-201 | At a loop head the vector holds the listener first, the clients, their CGI pipes and the orphans, each once; clients stand before their pipes and are unanswered |
| `PollerRuns.EveryLoopHead` | srcs/Poller.cpp:52-113 | From the start, at every loop head of every run: empty drop stack, exact vector, answered connections gone, every CGI added |
| `PollerRuns.CalmLoopHead` | srcs/Poller.cpp:52-113 | While no client leaves its CGI running and none is served in vain, the loop goes on and the vector is exactly listener, clients and pipes |
| `PollerRuns.AnswersAreUnique` | srcs/Poller.cpp:93-109 | In every run, also one that stops, each connection is answered at most once and starts at most one CGI, on a pipe of its own |
| `PollerRuns.CgiIsolation` | srcs/CGI.cpp:73-91 | What a CGI client is sent on success is everything the run reads from its own pipe, in order, right behind its first short or failed read |
| `PollerRuns.AcceptIsKept` | srcs/Poller.cpp:148-161 | An accepted connection is in vector and map at the next loop head, and no client appears otherwise |
| `PollerAnswers.CgiReadExactly` | srcs/Poller.cpp:294-326 | A full read of a CGI's pipe answers nothing; a short or failed one is followed by one answer, all that was read from the pipe, or the error page and status 500 if the CGI exited with failure |
| `PollerAnswers.ReadConnection` | srcs/Connection.cpp:85-105 | A client's bytes are added at the end of what it has sent, and a failed read sets status 500 |
| `PollerAnswers.ProcessedConnection` | srcs/Poller.cpp:203-282 | What parsing and routing leave of a connection, field by field |
| `PollerAnswers.EntryExactly` | srcs/Poller.cpp:67-110 | What handling an entry logs and whom it drops, told without the handlers |
| `PollerAnswers.RoundExactly` | srcs/Poller.cpp:52-113 | What a round reads, starts and sends, in order and also when it stops, and which clients are left, all told from the state it starts with |
| `PollerAnswers.FinishedCgiIsAnswered` | srcs/Poller.cpp:310-322 | In every run a CGI that ends without failure has everything the run reads from its pipe sent to its client, and one that fails the error page |
| `PollerAnswers.ServedClientIsAnswered` | srcs/Poller.cpp:93-109 | In every run a client that is served gets the response built for it or its CGI started, and only a CGI keeps it in the map |
| `PollerBytes.BytesAreKept` | srcs/Connection.cpp:85-105 | Until a client is served, its unread bytes are what its socket has yielded, read after read, whatever the other clients do |
| `PollerBytes.OpenDescriptorsExactly` | srcs/Poller.cpp:173-201 | At every loop head the open descriptors are the listener, the clients and the pipe of every CGI ever started: sockets are closed, pipes never |
| `PollerClients.HalfClosedClientStarves` | srcs/Poller.cpp:79-95 | A client with unread bytes whose socket stays readable without yielding any is neither answered nor dropped nor changed, in every run |
| `PollerOrphans.EntryDiesExactly` | srcs/Poller.cpp:67-110 | Handling an entry stops the loop exactly for the cause told: an orphan that is readable, or a client served in vain |
| `PollerOrphans.RoundDiesExactly` | srcs/Poller.cpp:67-110 | A round stops the loop exactly when some entry has a cause in the state the round starts with, and for the first such cause |
| `PollerOrphans.OrphansExactly` | srcs/Poller.cpp:173-201 | The orphans after a round are the old ones and the pipes of dropped clients whose CGIs are running |
| `PollerOrphans.RoundOrphans` | srcs/Poller.cpp:54-112 | The same for every whole round |
| `PollerOrphans.CalmRoundIsSafe` | srcs/Poller.cpp:54-112 | A round in which no client leaves its CGI running and none is served in vain goes on and leaves no orphan |
| `PollerFatalRun.HangupDuringCgiIsFatal` | srcs/Poller.cpp:76-91 | A run from the start that ends on a null connection: connect, send, start the CGI, hang up, CGI writes |
| `PollerFatalRun.RefusedRequestIsFatal` | srcs/Connection.cpp:122-128 | A run from the start that ends on a null route: connect, send, be answered at 400 |
| `PollerFatalRun.UnknownRedirectIsFatal` | srcs/response/ResponseStartLine.cpp:10-18 | A run from the start that ends on an exception: connect, send, be redirected with 299 |
| `PollerRequests.RefusedRequestIsReal` | srcs/request/HandleRequest.cpp:4-9 | The answers of the run that ends on a null route are the ones its request gets, whatever the servers are |
| `PollerRequests.UnknownRedirectIsReal` | srcs/Connection.cpp:194-203 | Those of the run that ends on an exception are the ones its request gets from a server that redirects with 299 |
| `PollerRequests.ScriptIsReal` | srcs/Connection.cpp:278-296 | Those of the run that ends on a null connection are the ones its request gets from a server that runs `.py` files |
| `PollerRequests.FatalAsFate` | srcs/Poller.cpp:95-108 | Serving a client stops the loop exactly as the pipeline says of the bytes it has sent |
| `PollerRequests.ServedInVainExactly` | srcs/Poller.cpp:95-108 | Which well-formed requests stop the loop: endless body, more than one dot, no Host, empty method or version, empty target, a post to a route with an unreadable length, a redirect with a code outside the table |
| `PollerRequests.UnservableStopsTheLoop` | srcs/Poller.cpp:67-110 | Such a request stops the loop in the round in which its client is writable |
| `PollerService.ServableRequestsAreServed` | srcs/Poller.cpp:42-116 | From the start: while every writable client has sent nothing or a request that can be served, no socket fails and no running CGI is left, the loop goes on with exactly listener, clients and pipes |
| `PollerService.CgiIsMatchedAgain` | srcs/Poller.cpp:93-102 | A request that waits for its CGI is matched to the same end whenever its client is writable, whatever the disk has become |
| `Chunked.PassShrinks` | srcs/request/Decoder.cpp:11-18 | Every pass over a non-empty body shortens what is unread |
| `Chunked.SpinsExactly` | srcs/request/Decoder.cpp:11-18 | The report of an endless loop is right: the loop condition holds after every number of passes, and otherwise some pass ends the loop with the decoded body |
| `Numbers.DigitsByPosition` | srcs/request/Decoder.cpp:10 | The digits are those of "0123456789abcdef" in either case, each with its position for a value |
| `Numbers.ValueOfHex` | srcs/request/Decoder.cpp:10 | Hexadecimal notation is read back as the number it was made from |
| `Numbers.ReadsDecimal` | srcs/Utils.cpp:16-31 | Behind blanks and a sign a decimal number is read as what it says, cut off at the range of int, whatever follows |
| `Numbers.ReadsPort` | srcs/Option.cpp:239-283 | The same for a port, where a sign negates modulo 2^16 and anything too large fails |
| `Chunked.SizeLineRead` | srcs/request/Decoder.cpp:10-17 | A chunk-size line is read as the hexadecimal number it spells, extensions ignored |
| `Chunked.PassOverChunk` | srcs/request/Decoder.cpp:13-17 | A pass appends exactly the chunk's bytes, CR and LF included, and leaves exactly what follows |
| `Chunked.DecodeManyChunks` | srcs/request/Decoder.cpp:7-20 | The loop consumes any list of chunks and goes on with what follows it |
| `Chunked.ChunkedRoundTrip` | srcs/request/Decoder.cpp:3-22 | Decoding the encoding (section 7.1 of RFC 9112) of any chunks, with any extensions and trailer, gives their concatenation |
| `Chunked.EncodedDataRoundTrip` | srcs/request/Decoder.cpp:3-22 | The same for any data cut into parts, each behind the hexadecimal number of its bytes in either case, written from the digits alone |
| `Chunked.TruncationSpinsExactly` | srcs/request/Decoder.cpp:11-18 | A cut-off encoding of plain chunks makes the loop endless exactly when some of it but nothing of the zero chunk is there; with the zero chunk begun all of it is decoded |
| `Chunked.CutBodySpinsExactly` | srcs/request/Decoder.cpp:11-18 | A body of any chunks that is cut off inside one makes the loop endless exactly when its size line is there, or the part of it that is there stalls |
| `Chunked.CutExtensionDecodes` | srcs/request/Decoder.cpp:13-17 | A body cut off in an extension for which the loop ends, with the digit of the size for data |
| `Chunked.CutDataSpinsBehind` | srcs/request/Decoder.cpp:14-17 | A body of any chunks that is cut off inside the data of one makes the loop endless |
| `Chunked.MissingLastChunkSpins` | srcs/request/Decoder.cpp:17 | So does one that ends behind a chunk |
| `RequestModel.Request.ParseFilenamesAndCgi` | srcs/request/HandleRequest.cpp:4-29 | The in-place edits of target and file name compute the split into directory, file and CGI path |
| `RequestModel.Request.ParseStartLine` | srcs/request/HandleRequest.cpp:47-62 | Erasing token after token splits the start line, and fails exactly on an empty URL |
| `RequestModel.Request.ParseHeaders` | srcs/request/HandleRequest.cpp:81-102 | The header loop ends on every byte string and reads fields, host and body as specified |
| `RequestModel.Request.DecodeRequest` | srcs/request/Decoder.cpp:3-22 | The in-place decoder computes the decoded body and tells when it would loop for ever |
| `RequestModel.Request.ParseRequest` | srcs/request/Request.cpp:52-60 | The stages in order, with their exception and non-termination, and the buffer emptied |
| `RequestSpec.FieldShrinks` | srcs/request/HandleRequest.cpp:87-95 | Each pass of the header loop removes at least one byte, with or without a colon |
| `RequestRoundTrip.BodyIsASuffix` | srcs/request/HandleRequest.cpp:97-101 | The body is a suffix of the input, for every byte string |
| `RequestRoundTrip.FilenameHasOneDot` | srcs/request/HandleRequest.cpp:10-28 | A file name that is found has exactly one dot and no slash, so the extension lookup is in range |
| `RequestRoundTrip.UrlConserved` | srcs/request/HandleRequest.cpp:4-45 | Target, file, CGI path and query in order are the URL again, whatever its dots |
| `RequestRoundTrip.TargetStartsWithSlash` | srcs/request/HandleRequest.cpp:41-44 | A URL that starts with a slash leaves a non-empty target that does |
| `RequestRoundTrip.UrlIsSplit` | srcs/request/HandleRequest.cpp:4-45 | A URL written from a directory, a file with one dot, what is behind it and a query is split into exactly these |
| `RequestRoundTrip.FieldWithoutColon` | srcs/request/HandleRequest.cpp:87-95 | Where no colon is left the rest of the text is a name, and value and rest are read behind its first byte |
| `RequestRoundTrip.HostPort` | srcs/request/HandleRequest.cpp:64-79 | A number behind the colon of Host becomes the port |
| `RequestRoundTrip.PortAsWritten` | srcs/request/HandleRequest.cpp:64-79 | The port is read behind the colon of the written Host, or is 80 |
| `RequestRoundTrip.WholeRequestRoundTrip` | srcs/request/Request.cpp:52-60 | Parsing what a client writes recovers method, URL, version, first value of each field, and the body byte for byte |
| `RequestRoundTrip.ChunkedRequestRoundTrip` | srcs/request/HandleRequest.cpp:104-113 | A flagged request with a chunked body delivers exactly the chunks' data |
| `RequestRoundTrip.SentDataRoundTrip` | srcs/request/HandleRequest.cpp:104-113 | A flagged request delivers the data a client sends in chunks of hexadecimal sizes in either case |
| `RequestRoundTrip.FlaggedExactly` | srcs/request/HandleRequest.cpp:104-113 | A body is decoded exactly when the first `Content-Encoding` field is `chunked` |
| `RequestRoundTrip.TruncatedRequestSpinsExactly` | srcs/request/HandleRequest.cpp:104-113 | A flagged request whose body is cut off keeps the parser from returning exactly when some of the body but nothing of its zero chunk is there |
| `RequestRoundTrip.AcceptedRequests` | srcs/request/ErrorHandling.cpp:3-59 | Parsing leaves status 200 exactly for the listed requests |
| `RequestRoundTrip.RefusedRequests` | srcs/request/ErrorHandling.cpp:3-46 | Parsing leaves status 400 exactly for more than one dot in the path, no Host, or an empty method or version |
| `RequestRoundTrip.StatusesExactly` | srcs/request/ErrorHandling.cpp:3-59 | Which of 200, 400, 405, 417, 418 and 505 parsing leaves, for every request, by dots, method, version and fields |
| `RequestRoundTrip.ParsedAsWritten` | srcs/request/Request.cpp:52-60 | Every part of a parsed request, and whether it is at 200 or 400, told from what the client wrote |
| `Tokenizer.StringReplaceMultiple` | srcs/FileParser.cpp:335-349 | The in-place loop replaces every occurrence from left to right and ends although the string grows |
| `Tokenizer.TokenizeString` | srcs/FileParser.cpp:310-329 | The index loop splits at delimiters, without empty tokens, and collapses runs of newlines |
| `Tokenizer.Tokenize` | srcs/FileParser.cpp:141-143 | The three passes one after the other |
| `Tokenizer.TokenizerMeetsSpecification` | srcs/FileParser.cpp:141-143 | On every text the three passes equal splitting into lines, then lines into words |
| `Tokenizer.TokensAreCanonical` | srcs/FileParser.cpp:310-329 | No token is empty or holds a blank; newlines are tokens of their own and never neighbours |
| `Tokenizer.TokensKeepLetters` | srcs/FileParser.cpp:141-143 | The word tokens in order are the text without its white space |
| `Tokenizer.PrintThenTokenize` | srcs/FileParser.cpp:310-349 | Printing a canonical token list and tokenizing gives it back |
| `FileParserModel.FileParser.OptionServerName` | srcs/Option.cpp:306-320 | The loop takes all words up to the newline in place of earlier names |
| `FileParserModel.FileParser.OptionAllowedMethods` | srcs/Option.cpp:375-396 | The loop takes at most three known methods and leaves a fourth word in front |
| `FileParserModel.FileParser.OptionIndex` | srcs/Option.cpp:494-508 | The loop takes all words up to the newline in place of the default |
| `FileParserModel.FileParser.OptionCgiExtension` | srcs/Option.cpp:531-544 | The loop adds all words up to the newline |
| `FileParserModel.FileParser.MapToken` | srcs/FileParser.cpp:188-267 | One pass of the loop is one step of the machine |
| `FileParserModel.FileParser.MapTokens` | srcs/FileParser.cpp:170-271 | The loop ends on every token list with the machine's verdict |
| `FileParserModel.MapConfig` | srcs/FileParser.cpp:132-159 | From text to port configurations, refusal or fault |
| `ConfigSafety.EveryHeadIsNested` | srcs/FileParser.cpp:186-268 | At every loop head the brackets are as many as the level, all `{`, the level is not negative, and every pass consumes a token |
| `ConfigSafety.AcceptedRunsBalance` | srcs/FileParser.cpp:193-212 | An accepted token list has balanced brackets and leaves every block |
| `ConfigSafety.AcceptanceIsSafe` | srcs/FileParser.cpp:200-206 | An accepted file has balanced brackets and only servers with a route |
| `ConfigSafety.AcceptedTablesAreWhole` | srcs/ServerConfig.cpp:71-80 | An accepted configuration has replaced pages of status codes but neither added nor lost a code |
| `ConfigSafety.AcceptedRoutesArePlaced` | srcs/Option.cpp:420-438 | Every route of an accepted configuration searches and uploads below "html/" |
| `ConfigFaults.FaultsExactly` | srcs/FileParser.cpp:186-268 | The compiler does something undefined exactly when some pass meets an open comment, a pointer never set or a missing path |
| `ConfigFaults.OpenCommentFaults` | srcs/FileParser.cpp:188-192 | Every accepted configuration does when a comment without a newline is appended |
| `ConfigFaults.EmptyNestFaults` | srcs/FileParser.cpp:204-207 | So do two blocks opened around nothing |
| `ConfigRefusals.RefusalsExactly` | srcs/FileParser.cpp:186-270 | A configuration is refused exactly when it is empty, when some pass finds a bracket, a word or an argument that is listed as wrong, or when a bracket is open at the end |
| `ConfigRefusals.KnownCodes` | srcs/ConfigUtil.cpp:53-126 | The codes of the table, one by one |
| `ConfigLines.StepLocal` | srcs/FileParser.cpp:186-268 | A step on a line does not look past the line's newline |
| `ConfigLines.RunLines` | srcs/FileParser.cpp:186-268 | The machine works line by line |
| `ConfigComments.CommentErasure` | srcs/FileParser.cpp:188-192 | Inserting or deleting a comment line at a line boundary keeps configuration, refusal and fault alike |
| `ConfigComments.TextCommentErasure` | srcs/FileParser.cpp:132-159 | The same on the text of the file, for comment lines with or without blanks in front |
| `ConfigComments.CommentsAloneAreAccepted` | srcs/FileParser.cpp:137-138 | A file of any comment lines is accepted while an empty one is refused |
| `ConfigRoundTrip.RouteDirectiveParsed` | srcs/Option.cpp:375-636 | Every printed route directive is parsed to its value, up to the end of its line |
| `ConfigRoundTrip.PathsArePlaced` | srcs/Option.cpp:420-438 | `root` and `upload_path` lead to "html/" and the path without a leading "/" or "./" |
| `ConfigRoundTrip.ServerDirectiveParsed` | srcs/Option.cpp:91-320 | Every printed server directive is parsed to its value, up to the end of its line |
| `ConfigRoundTrip.AddressParsed` | srcs/Option.cpp:239-283 | `host:port`, a port and an address alone are each read as what they say |
| `ConfigRoundTrip.AddressAloneExactly` | srcs/Option.cpp:250-262 | An argument without a colon is taken as an address exactly when it does not begin like a port number |
| `ConfigRoundTrip.RestIsDropped` | srcs/Option.cpp:250-255 | Of an argument that begins with a port number only that number is kept |
| `ConfigRoundTrip.DottedAddressIsMisread` | srcs/Option.cpp:200-210 | `listen 127.0.0.1` means port 127 on every address |
| `ConfigRoundTrip.TokensRoundTrip` | srcs/FileParser.cpp:170-271 | The tokens of a configuration tree are accepted and give its servers and routes in order, with every directive's value |
| `ConfigRoundTrip.ConfigRoundTrip` | srcs/FileParser.cpp:132-159 | The same for the printed text |
| `Routing.GroupServerConfigs` | srcs/FileParser.cpp:273-304 | The nested loops group the stack by port and leave it empty |
| `Routing.GroupingIsAPartition` | srcs/FileParser.cpp:273-304 | Every server is in exactly one group, ports differ, and each group lists its port's servers last declared first |
| `Routing.FirstRouteIsFirst` | srcs/PortConfig.cpp:70-77 | The route is the first declared one with the target as base URL, and none only if there is none |
| `Routing.SelectedIsLastDeclared` | srcs/PortConfig.cpp:88-118 | The server is the last declared one on the port that is named like Host, else the last declared one |
| `Routing.AcceptedTextAnswers` | srcs/PortConfig.cpp:57-118 | For every accepted configuration text: the last declared server with the Host value among its names answers, or else the last one on the port, with its error pages and limit, and its first route whose URL is the target, with or without a slash more, else 404 |
| `Routing.ConfiguredServerAnswers` | srcs/PortConfig.cpp:57-118 | The same for a printed tree, in terms of the servers that are written |
| `Routing.PortConfig.GetMatchingServerBlock` | srcs/PortConfig.cpp:88-118 | The search loop returns the selected server with its own error pages and body limit |
| `Routing.PortConfig.GetMatchingRoute` | srcs/PortConfig.cpp:57-81 | The first matching route of the selected server, or 404, with that server's error pages and limit; an empty target is reported |
| `Pipeline.Connection.CheckAcceptedMethods` | srcs/Connection.cpp:176-192 | The loop gives 405 exactly for a method the route does not list |
| `Pipeline.Connection.SearchDefaultIndexPages` | srcs/Connection.cpp:260-276 | The loop gives 200 or 404 by whether some index file can be read |
| `Pipeline.Connection.SearchCgiExtensions` | srcs/Connection.cpp:278-296 | The loop flags a CGI exactly for a GET whose extension the route lists |
| `Pipeline.Connection.MatchRoute` | srcs/Poller.cpp:257-282 | Matching and all stages behind it, with their exception and the empty target |
| `Pipeline.Connection.SendResponse` | srcs/response/ResponseStartLine.cpp:3-26 | What is sent for a status: nothing, a page with its Location, or a failure for want of a route, a redirect or a reason phrase |
| `PipelineSafety.StagesAreThePipeline` | srcs/Poller.cpp:272-280 | The six stages in order are what happens behind the route match |
| `PipelineSafety.NothingAfterTrouble` | srcs/Connection.cpp:135-203 | Behind the first stage that leaves a status other than 200 nothing changes the status, asks for a CGI or touches a file |
| `PipelineSafety.TroubleStaysInParse` | srcs/request/ErrorHandling.cpp:3-13 | Parsing does not make a status other than 200 into 200 |
| `PipelineSafety.TroubleStaysToTheEnd` | srcs/Poller.cpp:272-280 | From the bytes on: a request that parsing does not accept keeps its status, gets no route and changes nothing |
| `PipelineSafety.DiskChangesExactly` | srcs/Poller.cpp:257-282 | From the bytes on: a file is uploaded or deleted exactly under the conditions on fields, path, virtual host, route, limit and disk, and which file with what content |
| `PipelineSafety.EffectsExactly` | srcs/Connection.cpp:135-152 | The same behind the route match |
| `PipelineSafety.UploadTargetExactly` | srcs/handler/PostHandler.cpp:3-29 | An upload goes to the named file, or to "test." and what stands behind the slash of the content type |
| `PipelineSafety.CgiExactly` | srcs/Connection.cpp:278-296 | A CGI is asked for exactly for an accepted, unredirected GET of a file with a listed extension |
| `PipelineSafety.LimitIsExact` | srcs/Connection.cpp:225-243 | The size check refuses exactly what exceeds the limit, if and only if the declared or actual length compares rightly |
| `PipelineSafety.LimitWrapsAround` | srcs/Connection.cpp:239 | A limit of 4295 megabytes refuses one megabyte |
| `PipelineSafety.NegativeLengthIsRefused` | srcs/Connection.cpp:227-233 | A Content-Length of -1 is refused for being too large |
| `PipelineSafety.WholeTurnIsAdmitted` | srcs/Connection.cpp:235-239 | A body of 2^32 bytes without a Content-Length passes a limit of one megabyte |
| `PipelineSafety.EmptyTargetExactly` | srcs/PortConfig.cpp:64-66 | The target is empty exactly when the path names a file without a slash in front |
| `PipelineReplies.AcceptedServersArePaged` | srcs/FileParser.cpp:273-304 | Every server on a port of an accepted configuration has a table with exactly the known codes |
| `PipelineReplies.HandledStatus` | srcs/Connection.cpp:165-203 | The status behind a route is the redirect's code, if the request is redirected, or one of seven others |
| `PipelineReplies.EndExactly` | srcs/Connection.cpp:135-296 | The status and the CGI flag behind a route: 413, 405, the redirect's code, 200 or 404 for a GET by index files, extension and file, 201, 200 or 400 for a POST, 200, 400, 404 or 500 for a DELETE, each exactly under its condition |
| `PipelineReplies.SearchExactly` | srcs/Connection.cpp:166-174 | Where the response looks for files and whether it lists a directory |
| `PipelineReplies.ResponseFailsExactly` | srcs/Connection.cpp:115-133 | For all bytes: the response reads a route never set exactly for more than one dot, no Host, no method or no version; it lacks a reason phrase exactly for a request redirected with a code outside the table; it never reads a missing redirect |
| `PipelineReplies.RepliesExactly` | srcs/Poller.cpp:203-219 | From the bytes on, for every well-formed request: it hangs, strays, raises, is answered without a route, is redirected and with what, or gets the page of its exact status with its Location, or a CGI |
| `Witnesses.DottedRequestHasNoRoute` | srcs/Connection.cpp:122-128 | A request that is answered through a route never set |
| `Witnesses.SlashlessRequestStrays` | srcs/PortConfig.cpp:64-66 | A request whose target is empty |
| `Witnesses.VideoIsAccepted` | srcs/request/ErrorHandling.cpp:48-59 | A request with a video that passes the file-type check |
| `Witnesses.RedirectIsAnsweredByItsCode` | srcs/Option.cpp:622-636 | An accepted configuration for every redirect code, and what a request gets from it |
| `Witnesses.UnknownRedirectRaises` | srcs/response/ResponseStartLine.cpp:13-17 | The one for code 299 raises an exception |
| `Witnesses.ScriptStartsCgi` | srcs/Connection.cpp:278-296 | An accepted configuration and a request for which a CGI is started |

Every other method of the classes is proved equal to its step in the state machine or in the specification as well; the
table keeps to the loops, the entry points and the results.

## Left out

- Sockets, `poll`, `fork`, `execve`, `dup2`, `waitpid`, signals (the one of `send` included), threads and their start-up: foreign calls; the poll loop sees their results as the kernel's answers, and a failing `poll` or a signal, which ends the loop, is not modelled.
- `accept` and `pipe` failures, hang-ups of the listener or of a CGI pipe: excluded by the assumptions on the kernel stated above.
- The connections inside the poll loop: a client there is a value in the map (`Conn`), not the object of `Pipeline`; the results of parsing and routing are part of the kernel's answer and `PollerRequests` says which ones a request has. Aliasing between the map and a handler's pointer is not captured.
- What happens behind a cause that stops the loop (an unhandled exception, a null pointer, an endless decoder, a read outside of a string): only what had been sent until then.
- The CGI's environment, arguments and input, and the bytes of the responses: which status line and Location a response has, and when building it fails, is modelled; dates, lengths, page texts and their concatenation are not.
- Reading the file of a page: it is assumed to be possible once the file opens, which for a directory depends on the C++ library.
- Auto-index pages, error-page texts and debug printing: easy facts only.
- Loading the error pages and the configuration file: the text of a file is a parameter, and the default table is taken to have no entry for code 0, which the loader would add from a page of that name.
- `OptionUploadPath` sees the directory test as a set of directories; permissions are not modelled.
- Stream extraction beyond digits, sign, white space and overflow (locale, flags): library behaviour.
- Copying, assignment, destructors and heap ownership: values and references instead.
- Servers and routes inside `PortConfig` are values (trees); the arenas are resolved when compilation ends, and nothing changes them afterwards.
