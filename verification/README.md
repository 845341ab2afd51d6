# webhdfs_image_proxy: model and proofs

A proxy answers image requests. It reads a request with an incremental HTTP parser, fetches the image from
webhdfs, following redirects, caches it, has a page of it rendered by a pool of worker threads, and streams the
result back in chunks. This project models that path and pieces of the library under it, and proves what they are
for.

- **Parser** (`Bytes`, `HttpTypes`, `HttpSwitch`, `HttpStep`, `HttpInvariant`, `HttpRun`, `HttpExecute`,
  `HttpParser`): the switch of `http_parser_execute` as one function per group of states, a byte-at-a-time
  machine over (struct, calls made), and the real loop with its marks, re-executions and bulk jumps as a method
  proved to refine that machine. Calls with data are compared merged: a fragment that follows one of the same part
  lengthens it.
- **What a message means** (`HttpMethods`, `HttpHeaders`, `HttpValues`, `HttpHead`, `HttpFolded`, `HttpMessage`,
  `HttpChunked`, `HttpFraming`, `HttpRequest`, `HttpResponse`): which names, values, lengths and methods are
  recognised, exactly, and what is reported of whole requests and responses under every fragmentation.
- **Urls** (`HttpUrl`, `HttpUrlPrint`, `HttpUrlAgree`, `HttpLocation`): the url parser against labels of characters,
  printing and parsing, agreement with the message parser, following a redirect.
- **The proxy's side** (`HttpCollect`, `HttpCollector`, `ChunkWriter`, `ImageResponse`, `ResponseBuilder`,
  `Connection`, `RedirectBody`, `ConnectionObject`): what is collected of the calls, the answers and the chunk
  writer, and the connection as a state machine over completed operations. Its handlers are methods of an object that
  owns the parser, the collector and the buffer, and are proved against the machine.
- **Task pool** (`TaskPool`, `TaskPoolObject`): workers, queue, condition variable and shutdown as interleaved
  atomic steps.
- **Library** (`MemoryStorage`, `MemoryStream`, `CsvSpec`, `CsvReader`, `ScopedBuffer`, `Utf8`): the block-list
  stream against a flat string, the CSV reader against the whole input, the UTF-8 codec with its exact domain.

Bytes are `char`s throughout, units of the codec integers. Sizes are unbounded; where a width matters it is
written out: `content_length` wraps at 2^64, the stream's read size at 2^32, the decoder's shifts as a signed
32-bit integer. The parser is the strict build.

Where the code does not do what its comments or its interface suggest, the code is modelled and the limit is
stated exactly:

- The overflow test of Content-Length does not catch every wrap (`HttpHead.OverflowTestIsBlind`); a length is read
  exactly if and only if it is below 2^64-1 (`HttpHead.LengthIsExact`), and so is a chunk size
  (`HttpChunked.SizeIsExact`).
- A value that goes on on the next line (section 2.2 of RFC 2616) is handed over without the blank between, and what
  the parser makes of it goes by one line: a flag by the first, a length by the last (`HttpMessage.HeadersRead`,
  inputs in `HttpMessage.FoldedFlag` and `HttpMessage.FoldedLength`). When that is what the whole value says is stated
  by `HttpFolded.FoldedWordExactly` and `HttpFolded.FoldedLengthExactly`.
- A wrong third character of a method is usually no error (`HttpMethods.UnknownMethodIsTaken`,
  `HttpMethods.MethodsAreTakenExactly`).
- When an error is raised, the text marked at the character that failed is not handed over, and nothing else is
  missing (`lost` in `HttpParserObject.HttpParser.Execute`; the data of a chunk in `HttpChunked.LostChunk`).
- A redirect that delivered body bytes spoils the fetch behind it, because the stream refuses to write anywhere but
  at its end: what is cached is the last body unless a redirect delivered some, and then the first that did
  (`Connection.RunsCacheTheBody`; a run in `RedirectBody.RedirectBodyIsCached`).
- After the first trailer field no header can be looked up (`HttpCollect.TrailerHidesHeaders`).
- `utf_to_uc` refuses a lead byte without payload, which valid encodings can have (`Utf8.DecodeEncode`), and accepts
  sequences that are not the encoding of what it returns, exactly those that begin with 0xC1 or 0xFF
  (`Utf8.EncodeDecode`, `Utf8.Overlong`).
- The result of the url parse is not asked for by the proxy; only the fields found are
  (`HttpLocation.SetLocation`).
- A CSV record that ends in a comma inside an open quote has an empty last field whatever stands there; text is lost
  if and only if there is some in it (`CsvSpec.FieldsExactly`; a record in `CsvSpec.LostField`).

## Model

| member | source | states |
|---|---|---|
| Bytes.SetBit5Matches | webhdfs_image_proxy/http_parser.c:358 | comparing with bit 5 set is comparing lower-cased, for every byte but CR |
| HttpSwitch.ReexecutionDescends | webhdfs_image_proxy/http_parser.c:632-1815 | every re-execution of a character goes down in a rank on states, so each chain of them ends |
| HttpStep.FeedConcat | webhdfs_image_proxy/http_parser.c:572-1845 | feeding a string is feeding any two parts of it one after the other: same struct, errno and merged calls |
| HttpStep.FeedAllFlatten | webhdfs_image_proxy/http_parser.c:572-1845 | and so for any number of pieces |
| HttpStep.ConsumedExactly | webhdfs_image_proxy/http_parser.c:1837-1844 | a run without error or upgrade consumes exactly its input; a failed one stops at the first character that fails |
| HttpInvariant.ArmStruct | webhdfs_image_proxy/http_parser.c:632-1815 | each arm of the switch keeps the invariant of the struct: matcher index in bounds, header_state allowed by the state, content_length neither 0 nor 2^64-1 inside a body, every field within its width |
| HttpInvariant.ArmMarks | webhdfs_image_proxy/http_parser.c:80-123 | each arm keeps at most one data mark live, the one that belongs to the state, and flushes it when the state is left |
| HttpInvariant.ArmPhase | webhdfs_image_proxy/http_parser.c:632-1815 | each arm keeps its calls within the grammar of a message |
| HttpRun.CountedKeeps | webhdfs_image_proxy/http_parser.c:1649-1650 | where the switch is entered the asserts of the source hold: chunk states only when chunked, lengths real, nread 1 at a chunk size |
| HttpRun.DispatchKeeps | webhdfs_image_proxy/http_parser.c:646-1815 | one character with its re-executions: invariant, grammar, and a live fragment that ends in that character |
| HttpRun.AfterKeeps | webhdfs_image_proxy/http_parser.c:632-646 | the same with the header-size limit in front |
| HttpRun.FeedKeeps | webhdfs_image_proxy/http_parser.c:572-1845 | the invariant and the grammar survive any input |
| HttpRun.RunsAreGood | webhdfs_image_proxy/http_parser.c:572-1845 | from initialisation, on any bytes, the struct stays good until an error and the calls of each message stay in begin+, url*, headers, headers_complete, body*, trailer, message_complete |
| HttpRun.DeadStep | webhdfs_image_proxy/http_parser.c:647-655 | the dead state makes no call and is left only by an error |
| HttpRun.DeadIsSilent | webhdfs_image_proxy/http_parser.c:647-655 | once dead, no input makes any call |
| HttpRun.NoCallAfterTheLastMessage | webhdfs_image_proxy/http_parser.c:394 | after a message that ends the connection nothing more is reported, whatever follows |
| HttpExecute.ActsAccount | webhdfs_image_proxy/http_parser.c:101-123 | the callbacks made for an arm, with what its marks still owe, are what the byte machine reports |
| HttpExecute.MacrosAccount | webhdfs_image_proxy/http_parser.c:60-123 | the same for an arm together with the fragments it leaves marked |
| HttpExecute.BodyRun | webhdfs_image_proxy/http_parser.c:1644-1685 | skipping k body bytes at once equals consuming them one at a time: struct, length left and the text handed over |
| HttpExecute.BodyRunToEnd | webhdfs_image_proxy/http_parser.c:1653-1690 | taking the last bytes of a counted body hands them over and completes the message once |
| HttpExecute.ConsumedConcat | webhdfs_image_proxy/http_parser.c:1837-1844 | the consumed count adds up over a cut |
| HttpExecute.CharLocated | webhdfs_image_proxy/http_parser.c:60-123 | after any character that raises no error the marks of the loop stand where the states read so far say a part has begun |
| HttpExecute.BulkLocated | webhdfs_image_proxy/http_parser.c:1644-1685 | and after any run of body bytes |
| HttpExecute.LocatedMarking | webhdfs_image_proxy/http_parser.c:1817-1835 | so what is still marked is the text since the part began |
| HttpParserObject.HttpParser.constructor | webhdfs_image_proxy/http_parser.c:1898-1906 | a new parser is in its start state and satisfies the invariant |
| HttpParserObject.HttpParser.Byte | webhdfs_image_proxy/http_parser.c:646-1815 | one character in place, with re-executions and marks, refines the byte machine |
| HttpParserObject.HttpParser.BodyBytes | webhdfs_image_proxy/http_parser.c:1644-1690 | the bulk jump moves at least one byte, never past the input, and refines the byte machine |
| HttpParserObject.HttpParser.Leftover | webhdfs_image_proxy/http_parser.c:1817-1835 | the fragment still marked at the end of the input is handed over |
| HttpParserObject.HttpParser.Eof | webhdfs_image_proxy/http_parser.c:590-611 | a call without data completes a message that runs to the end, is quiet between messages, and is an error elsewhere |
| HttpParserObject.HttpParser.Ordinary | webhdfs_image_proxy/http_parser.c:634-646 | one turn of the loop: count the header byte, then switch |
| HttpParserObject.HttpParser.Reset | webhdfs_image_proxy/http_parser.c:1898-1906 | a used parser is as new |
| HttpParserObject.HttpParser.CompleteBody | webhdfs_image_proxy/http_parser.c:1653-1672 | the last byte of a counted body hands over what is marked and completes the message |
| HttpParserObject.HttpParser.Turn | webhdfs_image_proxy/http_parser.c:634-1815 | one turn of the loop, character or bulk: on, or the end with exactly what is then missing |
| HttpParserObject.HttpParser.Execute | webhdfs_image_proxy/http_parser.c:572-1845 | the whole call with marks and jumps has the struct and the consumed count of the byte machine, and its calls; after an error exactly the text marked at the character that failed is missing, and nothing if no part was being marked there |
| HttpParserObject.ExecutePieces | webhdfs_image_proxy/http_parser.c:572-1845 | split invariance of the object: given in any non-empty pieces without an upgrade it ends as if given all at once |
| HttpMethods.StepAgrees | webhdfs_image_proxy/http_parser.c:913-977 | while a method is read, what was read agrees with the method betted on, save a forgiven third character |
| HttpMethods.StepBet | webhdfs_image_proxy/http_parser.c:913-977 | every word that fits a method leads the parser from bet to bet towards that method |
| HttpMethods.MethodsAreTakenExactly | webhdfs_image_proxy/http_parser.c:872-977 | a word is taken for a method if and only if it has its length and agrees with it everywhere but at a third character the parser does not look at, be that a blank or a line end |
| HttpMethods.MethodRead | webhdfs_image_proxy/http_parser.c:872-977 | and then the struct is that of a new message with that method |
| HttpMethods.UnknownMethodIsTaken | webhdfs_image_proxy/http_parser.c:962-967 | from the start of a request GEX and a blank is taken for GET, and no method is called GEX |
| HttpHeaders.TracksExactly | webhdfs_image_proxy/http_parser.c:1224-1327 | at the end of a name the matcher is in the state of a known header if and only if the lower-cased name is that word |
| HttpHeaders.WholeName | webhdfs_image_proxy/http_parser.c:1174-1348 | a token name of any length, read from the start of a line, with the one field call |
| HttpHeaders.NameToColon | webhdfs_image_proxy/http_parser.c:1174-1348 | and its colon: header_state says which known name it is, if any |
| HttpHeaders.IntoName | webhdfs_image_proxy/http_parser.c:1174-1222 | only a token character leads into a name, from the start of a line or from within it |
| HttpHeaders.NamesAreTracked | webhdfs_image_proxy/http_parser.c:1174-1327 | on any input, wherever a header name is being read, the matcher stands exactly where the name read so far has led |
| HttpHeaders.NamesAreRecognisedExactly | webhdfs_image_proxy/http_parser.c:1174-1348 | at the colon header_state is connection, content-length, transfer-encoding or upgrade if and only if the lower-cased name is that word, or proxy-connection for the first |
| HttpValues.ValueRun | webhdfs_image_proxy/http_parser.c:1421-1516 | a value, character by character: what is matched of chunked, keep-alive and close, and the one value call |
| HttpValues.FlagsExactly | webhdfs_image_proxy/http_parser.c:1518-1539 | the flag of a header line is set if and only if the lower-cased value is the word and then only spaces |
| HttpValues.ValueLine | webhdfs_image_proxy/http_parser.c:1354-1548 | a whole value line after any leading blanks, with either line end |
| HttpHead.WrappedIsModular | webhdfs_image_proxy/http_parser.c:1447-1462 | the length read so far is the number read so far modulo 2^64 |
| HttpHead.LengthIsExact | webhdfs_image_proxy/http_parser.c:1447-1470 | a Content-Length, blanks among its digits or not, is read without error as the number it denotes if and only if that number is below 2^64-1 |
| HttpHead.OverflowTestIsBlind | webhdfs_image_proxy/http_parser.c:1463 | the value 30000000000000000000, fed from its first digit, raises no error and is read as 11553255926290448384 |
| HttpHead.HeaderLine | webhdfs_image_proxy/http_parser.c:1174-1548 | a whole header line: its field call, its value call and its flag |
| HttpHead.LengthLine | webhdfs_image_proxy/http_parser.c:1393-1470 | a whole Content-Length line |
| HttpFolded.FoldsRead | webhdfs_image_proxy/http_parser.c:1518-1551 | the lines a value goes on with are handed over with it and set no flag |
| HttpFolded.LengthFoldsRead | webhdfs_image_proxy/http_parser.c:1393-1400 | in a Content-Length each of them starts the number anew |
| HttpFolded.FoldedLengthExactly | webhdfs_image_proxy/http_parser.c:1393-1400 | so a length over several lines is the number handed over if and only if all before its last line is zero |
| HttpFolded.FoldedWordExactly | webhdfs_image_proxy/http_parser.c:1518-1551 | a flag goes by the first line of a value: that is what the whole value says if and only if no word is broken over the lines and only spaces stand behind a whole one |
| HttpMessage.FoldedFlag | webhdfs_image_proxy/http_parser.c:1518-1551 | a value over two lines that is not the word and sets its flag |
| HttpMessage.FoldedLength | webhdfs_image_proxy/http_parser.c:1393-1400 | one over two lines that is handed over as 12 and taken for 2 |
| HttpMessage.NumberRead | webhdfs_image_proxy/http_parser.c:737-835 | a version or status number of up to 999 is read as its decimal value |
| HttpMessage.VersionRead | webhdfs_image_proxy/http_parser.c:717-801 | a version, in a status line or a request line |
| HttpMessage.StatusLineRead | webhdfs_image_proxy/http_parser.c:694-871 | a status line with numbers of up to 999, any reason or none and either line end is read as written |
| HttpMessage.HeadersRead | webhdfs_image_proxy/http_parser.c:1174-1551 | any list of headers, on one line or several: their calls in order and what they tell the parser, a flag by the first line of its value, a length by the last |
| HttpMessage.HeadEnds | webhdfs_image_proxy/http_parser.c:1553-1642 | the blank line, with either line end: headers are complete and the framing is chosen, chunks before a length, a length before the end of the connection (section 4.4 of RFC 2616) |
| HttpChunked.SizeLineRead | webhdfs_image_proxy/http_parser.c:1692-1770 | a chunk-size line with any extension is read as its hexadecimal value below 2^64-1 (section 3.6.1 of RFC 2616) |
| HttpChunked.SizeIsExact | webhdfs_image_proxy/http_parser.c:1692-1743 | a chunk size is read without error as the number it denotes if and only if that number is below 2^64-1 |
| HttpChunked.ChunkRead | webhdfs_image_proxy/http_parser.c:1692-1808 | a chunk hands over exactly its data and comes back to the next size |
| HttpChunked.LostChunk | webhdfs_image_proxy/http_parser.c:1795-1801 | a chunk in one buffer with no line end behind it: the error is raised there, and its data are what is not handed over |
| HttpChunked.ChunksRead | webhdfs_image_proxy/http_parser.c:1692-1808 | a list of chunks hands over the concatenation of their data |
| HttpChunked.LastRead | webhdfs_image_proxy/http_parser.c:1749-1770 | the zero chunk, a trailer and the blank line complete the message once |
| HttpChunked.ChunkedBodyRead | webhdfs_image_proxy/http_parser.c:1692-1808 | a whole chunked body is consumed to its last byte: data, trailer, one message_complete |
| HttpFraming.HeadRest | webhdfs_image_proxy/http_parser.c:1174-1642 | behind the first line of a request or a response: the headers, the blank line and the framing |
| HttpFraming.ContentRead | webhdfs_image_proxy/http_parser.c:1601-1808 | the announced content, counted or chunked, of either kind of message |
| HttpFraming.MessageRead | webhdfs_image_proxy/http_parser.c:1174-1808 | the rest of any message behind its first line: headers, one headers_complete, exactly the announced body, the trailer, one message_complete |
| HttpRequest.RequestLineRead | webhdfs_image_proxy/http_parser.c:872-1172 | a request line: the url is handed over as it stands, method and version are kept |
| HttpRequest.MessageReported | webhdfs_image_proxy/http_parser.c:872-1808 | one request with headers, body or chunks, from any parser that waits for one |
| HttpRequest.PipelineRead | webhdfs_image_proxy/http_parser.c:630-1808 | and any number of them behind one another |
| HttpRequest.RequestsReported | webhdfs_image_proxy/http_parser.c:572-1845 | any number of requests in any pieces: each is reported with its url, headers, own body and trailer, once, in order |
| HttpResponse.HeadRead | webhdfs_image_proxy/http_parser.c:694-1642 | a response head: all its calls, the framing it chooses, the state it leaves |
| HttpResponse.ResponseReported | webhdfs_image_proxy/http_parser.c:1601-1808 | a response with a length or in chunks, under every fragmentation, hands over exactly its body, then its trailer, and completes once |
| HttpResponse.EofResponse | webhdfs_image_proxy/http_parser.c:1631-1685 | a response without a length takes everything as body and is not completed by data |
| HttpUrl.UrlForward | webhdfs_image_proxy/http_parser.c:423-570 | a url only goes forward through its parts, and a dead scan stays dead |
| HttpUrl.CollectExactly | webhdfs_image_proxy/http_parser.c:2072-2128 | extending a field on an unchanged label and beginning one on a new label yields, for each field, exactly the range of its characters |
| HttpUrl.ParseHost | webhdfs_image_proxy/http_parser.c:1986-2057 | the loop over the host accepts where the host grammar accepts and leaves the ranges of user, host and port |
| HttpUrl.StrToUl | webhdfs_image_proxy/http_parser.c:2143-2145 | the port is the number its digits denote, up to the first character that is no digit |
| HttpUrl.PortIsTail | webhdfs_image_proxy/http_parser.c:1972-1976 | a port is digits up to the end of the host part, so the number read past the field is the field |
| HttpUrl.HostBoundary | webhdfs_image_proxy/http_parser.c:456-480 | what follows the host part is no digit |
| HttpUrl.ParseUrl | webhdfs_image_proxy/http_parser.c:2059-2156 | the loop with old_uf, found_at and the checks behind it computes the outcome and the fields given by the labels of the characters |
| HttpUrl.FieldsAreExact | webhdfs_image_proxy/http_parser.c:2072-2128 | after any defined outcome, failed ones too, schema, path, query and fragment are exactly the characters scanned as such, and every range lies in the text |
| HttpUrl.HostIsSplit | webhdfs_image_proxy/http_parser.c:1986-2057 | after success user, host and port are exactly the characters the host scan took for them, inside what was scanned as host |
| HttpUrlPrint.OriginFormRead | webhdfs_image_proxy/http_parser.c:2059-2156 | printing a path, a query and a fragment and parsing gives back exactly their ranges and nothing else |
| HttpUrlPrint.AbsoluteFormRead | webhdfs_image_proxy/http_parser.c:2059-2156 | printing schema, userinfo, named or bracketed host, port, path, query and fragment likewise; with a port above 65535 the parse fails |
| HttpUrlAgree.UrlAgrees | webhdfs_image_proxy/http_parser.c:979-1050 | the message parser gets through a url without blanks if and only if the url scan stays alive, and then it has handed over that url |
| HttpUrlAgree.AcceptedUrlScans | webhdfs_image_proxy/http_parser.c:979-1050 | no url of an accepted request drives the scan of the url parser to its dead state |
| HttpLocation.SetLocation | webhdfs_image_proxy/connection.cpp:260-290 | host, port and unprefixed path are those fields of the redirect, found or defaulted as the source does, whether or not the parse succeeded |
| HttpLocation.BuildRequest | webhdfs_image_proxy/connection.cpp:159-176 | the request in the buffer is the request text, or as much of it as fits |
| HttpLocation.RedirectIsFollowed | webhdfs_image_proxy/connection.cpp:260-290 | a redirect to a path below /webhdfs/v1 is followed to that very path, at its own host, bracketed or not, and port |
| ChunkWriter.HexInverse | webhdfs_image_proxy/connection.cpp:506 | a size printed in hexadecimal reads back as itself |
| ChunkWriter.BuildChunk | webhdfs_image_proxy/connection.cpp:503-511 | the size line is put in front of the data and CRLF behind; every frame fits the buffer |
| ChunkWriter.NextFrame | webhdfs_image_proxy/connection.cpp:514-523 | one call of the handler reads the next piece and frames it |
| ChunkWriter.WriteImage | webhdfs_image_proxy/connection.cpp:512-529 | the write loop over the stream puts out exactly the frames of what is left of the image |
| ChunkWriter.FramesAreChunks | webhdfs_image_proxy/connection.cpp:503-529 | the frames are a well-formed chunked body whose data is the image |
| ChunkWriter.ImageRoundTrip | webhdfs_image_proxy/connection.cpp:503-529 | for every image, its frames in any pieces are consumed whole, hand over the image and complete the message once |
| ImageResponse.ImageHeadSeen | webhdfs_image_proxy/connection.cpp:445-450 | the image head says chunked and close, so the body is framed by chunks |
| ImageResponse.ImageHeadCalls | webhdfs_image_proxy/connection.cpp:445-450 | the calls a client's parser makes for the image head |
| ImageResponse.ImageResponseRead | webhdfs_image_proxy/connection.cpp:478-529 | head and frames in any pieces: the client's parser reports the image once and is dead to whatever follows |
| ResponseBuilder.DecimalDigits | webhdfs_image_proxy/connection.cpp:441 | a number printed in decimal reads back as itself |
| ResponseBuilder.AnswerFits | webhdfs_image_proxy/connection.cpp:431-476 | the head and the JSON text of every answer fit the buffer |
| ResponseBuilder.BuildHead | webhdfs_image_proxy/connection.cpp:431-468 | the status line and the headers for the code are in the buffer |
| ResponseBuilder.BuildResponse | webhdfs_image_proxy/connection.cpp:431-476 | the buffer holds the answer: head, and the JSON text behind it if that was asked for |
| ResponseBuilder.ImageHeadIsBuilt | webhdfs_image_proxy/connection.cpp:441-468 | the answer for code 200 and an image is the head whose reading was proved |
| ResponseBuilder.JsonHeadIsBuilt | webhdfs_image_proxy/connection.cpp:451-476 | and with JSON it is a response head and its body |
| ResponseBuilder.JsonHeadSeen | webhdfs_image_proxy/connection.cpp:451-468 | that head announces the length of that body |
| ResponseBuilder.JsonAnswerRead | webhdfs_image_proxy/connection.cpp:451-476 | in any pieces the client's parser reports the description of the page, once |
| HttpCollect.CalledSound | webhdfs_image_proxy/http_parse.cpp:7-61 | no callback moves head, tail or header_it out of order or overfills a header |
| HttpCollect.CalledTwice | webhdfs_image_proxy/http_parse.cpp:28-61 | two fragments of one part leave what the whole would have left |
| HttpCollect.FragmentsDoNotMatter | webhdfs_image_proxy/http_parse.cpp:7-61 | what is collected depends on the merged calls only |
| HttpCollect.HeadersHeld | webhdfs_image_proxy/http_parse.cpp:34-51 | a list of headers fills the first sixteen slots with their clipped names and values, in order |
| HttpCollect.HeadersCollected | webhdfs_image_proxy/http_parse.cpp:7-51 | after headers_complete a lookup gives the clipped value of the first case-insensitive match among the first sixteen |
| HttpCollect.TrailerHidesHeaders | webhdfs_image_proxy/http_parse.cpp:34-51 | a trailer field is not collected, and with it no header can be looked up any more |
| HttpCollect.ResponseCollected | webhdfs_image_proxy/http_parse.cpp:86-93 | from bytes to lookup: any head in any pieces, its calls in any fragments |
| HttpCollect.BodyCollected | webhdfs_image_proxy/http_parse.cpp:53-61 | the body of a response is written to the stream as one |
| HttpCollectorObject.Append | webhdfs_image_proxy/http_parse.hpp:33-40 | the buffer holds the old text and the new, cut to one less than its size, and a zero behind |
| HttpCollectorObject.HeaderSlot.AppendField | webhdfs_image_proxy/http_parse.hpp:23-25 | the name is lengthened, clipped to 255 |
| HttpCollectorObject.HeaderSlot.AppendValue | webhdfs_image_proxy/http_parse.hpp:29-31 | the value is lengthened, clipped to 511 |
| HttpCollectorObject.HttpCollector.constructor | webhdfs_image_proxy/http_parse.cpp:63-77 | sixteen empty slots with buffers of their own |
| HttpCollectorObject.HttpCollector.OnMessageBegin | webhdfs_image_proxy/http_parse.cpp:7-11 | header_it goes back to the first slot and nothing else changes |
| HttpCollectorObject.HttpCollector.OnHeadersComplete | webhdfs_image_proxy/http_parse.cpp:13-20 | refines the collected value: from here on lookups see the slots filled so far |
| HttpCollectorObject.HttpCollector.OnMessageComplete | webhdfs_image_proxy/http_parse.cpp:22-26 | message_complete is set and nothing else |
| HttpCollectorObject.HttpCollector.WriteTo | webhdfs_image_proxy/connection.cpp:195 | the bodies go to another stream from now on |
| HttpCollectorObject.HttpCollector.On | webhdfs_image_proxy/http_parse.cpp:7-61 | a callback of the parser does to the object what it does to the collected value |
| HttpCollectorObject.HttpCollector.OnAll | webhdfs_image_proxy/http_parse.cpp:7-61 | and so does any series of them |
| HttpCollectorObject.HttpCollector.OnUrl | webhdfs_image_proxy/http_parse.cpp:28-32 | refines the collected value: the url is the concatenation of its fragments |
| HttpCollectorObject.HttpCollector.OnHeaderField | webhdfs_image_proxy/http_parse.cpp:34-41 | head moves to header_it and only that slot is lengthened |
| HttpCollectorObject.HttpCollector.OnHeaderValue | webhdfs_image_proxy/http_parse.cpp:43-51 | refines the collected value; header_it moves on with the first fragment only |
| HttpCollectorObject.HttpCollector.OnBody | webhdfs_image_proxy/http_parse.cpp:53-61 | refines the collected value: the body goes to the stream |
| HttpCollectorObject.HttpCollector.ClearHeaders | webhdfs_image_proxy/http_parse.hpp:57-64 | all slots are empty again, everything else is kept |
| HttpCollectorObject.HttpCollector.Reset | webhdfs_image_proxy/http_parse.cpp:79-84 | the collector is as new, with the same stream |
| HttpCollectorObject.HttpCollector.Lookup | webhdfs_image_proxy/http_parse.hpp:65-76 | the loop finds the first header with that name, whatever its case |
| Connection.CollectedHolds | webhdfs_image_proxy/http_parse.cpp:53-61 | while a response is read the stream holds its body so far, or unchanged what a redirect left in it |
| Connection.ParsedHolds | webhdfs_image_proxy/connection.cpp:299-303 | after any further valid input: parser and collector are those of all that was received since the last redirect, and the stream holds the first body of the fetch that was not empty |
| Connection.SendResponseKeeps | webhdfs_image_proxy/connection.cpp:478-501 | answering keeps the invariant: an image head only for an image that is there and not empty |
| Connection.SendPageKeeps | webhdfs_image_proxy/connection.cpp:377-414 | caching and rendering keep it: the entry is stored under the requested path |
| Connection.SendRequestKeeps | webhdfs_image_proxy/connection.cpp:178-203 | asking keeps it: a fetch under way keeps its image and its key |
| Connection.RedirectedKeeps | webhdfs_image_proxy/connection.cpp:320-334 | following a redirect keeps it |
| Connection.HandleResponseKeeps | webhdfs_image_proxy/connection.cpp:299-370 | reading a response keeps it |
| Connection.HandleRequestKeeps | webhdfs_image_proxy/connection.cpp:120-156 | reading the request keeps it |
| Connection.ChunkKeeps | webhdfs_image_proxy/connection.cpp:512-524 | the next chunk keeps it: what is on the wire and what is left make up the frames of the image |
| Connection.ActKeeps | webhdfs_image_proxy/connection.cpp:120-529 | every completed operation, whatever came of it, keeps the invariant of the connection |
| Connection.ActUnstuck | webhdfs_image_proxy/connection.cpp:120-529 | no step leaves an image behind its head with nothing pending, unless a write failed |
| Connection.RunUnstuck | webhdfs_image_proxy/connection.cpp:120-529 | and no run does |
| Connection.RunsFollowProtocol | webhdfs_image_proxy/connection.cpp:120-529 | in every run at most one operation is pending; at most one head; chunks only behind an image head, the empty one only last, and then the wire carries exactly the frames of the rendered image; unless a write fails an image is never left without its last chunk |
| Connection.RunsCacheTheBody | webhdfs_image_proxy/connection.cpp:178-203 | in every run and across any redirects the cache key is the requested path, only a complete response with code 200 is cached, and the cached bytes are its body unless a redirect delivered body bytes: then they are the first that did |
| RedirectBody.RedirectBodyIsCached | webhdfs_image_proxy/connection.cpp:178-203 | a whole run, from the request on, in which the body of a redirect is cached as the image |
| Connection.SentImage | webhdfs_image_proxy/connection.cpp:478-529 | what is sent for an image is the head that was built and the frames |
| Connection.ClientReadsImage | webhdfs_image_proxy/connection.cpp:478-529 | in every run that wrote the empty chunk the client's parser reads, in any pieces, exactly the rendered image |
| Connection.ClientReadsDescription | webhdfs_image_proxy/connection.cpp:451-501 | in every run that answered with JSON it reads, in any pieces, the description of the page |
| Connection.BodyIsKept | webhdfs_image_proxy/connection.cpp:299-370 | the body kept of a response, counted or chunked, is its body |
| ConnectionObject.ToldAll | webhdfs_image_proxy/http_parse.cpp:86-93 | the callbacks the parser has made since it was last asked make of the collector what the merged calls make of it |
| ConnectionObject.Drive | webhdfs_image_proxy/http_parse.cpp:86-93 | a call of the parser with the collector's callbacks: what was consumed, the struct, and the collected value |
| ConnectionObject.Restart | webhdfs_image_proxy/http_parse.cpp:79-84 | parser and collector start anew for a response, the stream is kept |
| ConnectionObject.ProxyConnection.constructor | webhdfs_image_proxy/connection.cpp:58-67 | a connection starts with one pending read |
| ConnectionObject.ProxyConnection.LoadAnswer | webhdfs_image_proxy/connection.cpp:494-495 | the answer for the status is in the buffer |
| ConnectionObject.ProxyConnection.Respond | webhdfs_image_proxy/connection.cpp:478-501 | the new state is that of the machine, and the write is given the answer built in the buffer |
| ConnectionObject.ProxyConnection.PageReady | webhdfs_image_proxy/connection.cpp:377-414 | caches, describes or queues the image as the machine does |
| ConnectionObject.ProxyConnection.Ask | webhdfs_image_proxy/connection.cpp:178-203 | answers from the cache or starts a fetch as the machine does |
| ConnectionObject.ProxyConnection.ParseMore | webhdfs_image_proxy/connection.cpp:302-303 | parser and collector objects are, if all of the data was accepted, in the state of the machine; if not, that is what is returned |
| ConnectionObject.ProxyConnection.PathOf | webhdfs_image_proxy/connection.cpp:77-88 | the path field of the url, if the parse left one |
| ConnectionObject.ProxyConnection.HandleReadRequest | webhdfs_image_proxy/connection.cpp:120-156 | the handler takes the step of the machine and keeps its invariant |
| ConnectionObject.ProxyConnection.TakeRequest | webhdfs_image_proxy/connection.cpp:128-145 | the branch taken behind the parse of a request is the one of the machine |
| ConnectionObject.ProxyConnection.AnswerRequest | webhdfs_image_proxy/connection.cpp:132-139 | a complete request is answered 400 or asked for, by the method and the url the objects hold |
| ConnectionObject.ProxyConnection.BeginAsking | webhdfs_image_proxy/connection.cpp:221-228 | the request is built in the buffer and its write started |
| ConnectionObject.ProxyConnection.HandleResolve | webhdfs_image_proxy/connection.cpp:205-219 | takes the step of the machine and keeps the invariant |
| ConnectionObject.ProxyConnection.HandleConnect | webhdfs_image_proxy/connection.cpp:221-243 | takes the step, with the request text in the buffer |
| ConnectionObject.ProxyConnection.HandleWriteRequest | webhdfs_image_proxy/connection.cpp:245-258 | takes the step: parser and collector are reset, the stream is kept |
| ConnectionObject.ProxyConnection.Locate | webhdfs_image_proxy/connection.cpp:328-330 | the next peer, or none |
| ConnectionObject.ProxyConnection.Redirect | webhdfs_image_proxy/connection.cpp:320-334 | follows the redirect or answers 500 as the machine does |
| ConnectionObject.ProxyConnection.HandleReadResponse | webhdfs_image_proxy/connection.cpp:299-370 | takes the step of the machine and keeps the invariant |
| ConnectionObject.ProxyConnection.Receive | webhdfs_image_proxy/connection.cpp:301-303 | more of a response has gone through the parser and the collector into the stream |
| ConnectionObject.ProxyConnection.UseResponse | webhdfs_image_proxy/connection.cpp:312-352 | redirect, error, page or more, by what the collector holds |
| ConnectionObject.ProxyConnection.TakeResponse | webhdfs_image_proxy/connection.cpp:312-363 | the branch taken behind the parse of a response is the one of the machine |
| ConnectionObject.ProxyConnection.Emit | webhdfs_image_proxy/connection.cpp:514-522 | the write is given the frame that stands in the buffer |
| ConnectionObject.ProxyConnection.WriteChunk | webhdfs_image_proxy/connection.cpp:514-523 | the next chunk, framed in the buffer |
| ConnectionObject.ProxyConnection.HandleWriteResponse | webhdfs_image_proxy/connection.cpp:512-529 | takes the step, with the frame of the chunk in the buffer |
| ConnectionObject.ProxyConnection.HandleRendered | webhdfs_image_proxy/task_pool.cpp:51-52 | takes the step for the call the pool makes |
| CsvSpec.CutIsFirst | cpcl/csv_reader.hpp:195-210 | the cut is the least position of the separator with an even number of quotes before it |
| CsvSpec.CutConcat | cpcl/csv_reader.hpp:136-142 | a scan over what is in the buffer goes on over what is read later, with the parity so far |
| CsvSpec.CollapseDouble | cpcl/csv_reader.hpp:27-43 | collapsing undoes doubling |
| CsvSpec.FieldsOfPrinted | cpcl/csv_reader.hpp:63-109 | a printed row has the fields it was printed from |
| CsvSpec.TailIsLast | cpcl/csv_reader.hpp:59 | what stands behind the last comma outside quotes ends in a comma if and only if the record does, inside an open quote |
| CsvSpec.FieldsAreSegments | cpcl/csv_reader.hpp:57-109 | the fields of a record are its segments between commas outside quotes, trimmed, with an empty field for the last one where the record ends in a comma inside an open quote |
| CsvSpec.FieldsExactly | cpcl/csv_reader.hpp:57-109 | so they are exactly its trimmed segments if and only if no last segment with text in it is lost that way |
| CsvSpec.LostField | cpcl/csv_reader.hpp:57-109 | a record that loses one |
| CsvSpec.PrintedIsRead | cpcl/csv_reader.hpp:27-210 | any table printed with every field quoted, quotes doubled, commas between and CRLF behind is read back as it was (section 2 of RFC 4180) |
| CsvReaderObject.CountChar | cpcl/csv_reader.hpp:17-25 | the loop counts the occurrences |
| CsvReaderObject.ReplaceDoubleQuotes | cpcl/csv_reader.hpp:27-43 | the loop collapses doubled quotes in place, touching nothing outside the range |
| CsvReaderObject.FieldIterator.constructor | cpcl/csv_reader.hpp:57-61 | the fields left are those of the record |
| CsvReaderObject.FieldIterator.Trim | cpcl/csv_reader.hpp:63-81 | what stands between the first and the last quote, collapsed in place if asked for |
| CsvReaderObject.FieldIterator.Separator | cpcl/csv_reader.hpp:84-101 | the scan finds the comma that ends the field, or says whether text is left |
| CsvReaderObject.FieldIterator.Next | cpcl/csv_reader.hpp:83-109 | the next field of the record, in order, whatever was rewritten before; nothing outside the record is touched |
| CsvReaderObject.Input.Read | cpcl/csv_reader.hpp:179 | a read gives what is asked for or all that is left |
| CsvReaderObject.Grown | cpcl/csv_reader.hpp:173 | the new size is above the old one and a multiple of N |
| CsvReaderObject.CsvReader.constructor | cpcl/csv_reader.hpp:122-126 | everything is still to be handed out |
| CsvReaderObject.CsvReader.Enlarge | cpcl/csv_reader.hpp:171-176 | a larger block that begins with the same characters |
| CsvReaderObject.CsvReader.MakeRoom | cpcl/csv_reader.hpp:163-178 | what was buffered is at the start of a buffer with room behind it |
| CsvReaderObject.CsvReader.FillBuf | cpcl/csv_reader.hpp:159-184 | nothing is lost or reordered by a read, and the stream is let go of when it gave too little |
| CsvReaderObject.CsvReader.Find | cpcl/csv_reader.hpp:195-210 | the scan from anywhere finds the line feed of even parity or counts all quotes for the next scan |
| CsvReaderObject.FieldIt | cpcl/csv_reader.hpp:186-193 | one carriage return is dropped if a line feed follows it |
| CsvReaderObject.CsvReader.Seek | cpcl/csv_reader.hpp:130-142 | the loop reads on until the line feed is in the buffer or the input has ended |
| CsvReaderObject.CsvReader.Next | cpcl/csv_reader.hpp:129-156 | the record handed out is the first of all that was still to come, what remains is what follows it, and there is none only at the end |
| CsvReaderObject.NextRow | cpcl/csv_reader.hpp:83-156 | a record with its fields, rewritten in place, leaves the rest of the input as it was |
| CsvReaderObject.ReadTable | cpcl/csv_reader.hpp:17-210 | for every power of two above 1 as buffer size and every input, the table read is the pure split of the whole input |
| ScopedBuffer.ScopedBuf.constructor | cpcl/scoped_buf.hpp:17-18 | a new buffer is sound and empty |
| ScopedBuffer.ScopedBuf.Alloc | cpcl/scoped_buf.hpp:23-33 | enough room: where it was if the capacity allows, else a block of its own or the array inside |
| ScopedBuffer.ScopedBuf.Attach | cpcl/scoped_buf.hpp:34-39 | the given block, not owned |
| ScopedBuffer.ScopedBuf.Release | cpcl/scoped_buf.hpp:40-49 | back to the array inside, empty |
| ScopedBuffer.ScopedBuf.Swap | cpcl/scoped_buf.hpp:56-67 | blocks change hands; a side that takes over no block is sound afterwards if and only if both have the same fixed size |
| MemoryStorage.Storage.Write | cpcl/dynamic_memory_stream.cpp:58-84 | a write at any offset up to the end lengthens or overwrites the flat content and nothing else |
| MemoryStorage.Storage.Read | cpcl/dynamic_memory_stream.cpp:16-28 | a read across blocks gives the slice of the flat content |
| MemoryStream.DynamicMemoryStream.Clear | cpcl/dynamic_memory_stream.h:25-27 | empty, cursor at the beginning |
| MemoryStream.DynamicMemoryStream.Write | cpcl/dynamic_memory_stream.cpp:147-160 | appends at the end and is refused elsewhere |
| MemoryStream.DynamicMemoryStream.Read | cpcl/dynamic_memory_stream.cpp:136-145 | reads on from the cursor |
| MemoryStream.DynamicMemoryStream.Seek | cpcl/dynamic_memory_stream.cpp:162-184 | moves anywhere between beginning and end or not at all |
| MemoryStream.DynamicMemoryStream.Tell | cpcl/dynamic_memory_stream.cpp:186-188 | the cursor |
| MemoryStream.DynamicMemoryStream.Size | cpcl/dynamic_memory_stream.cpp:190-192 | the length |
| MemoryStream.DynamicMemoryStream.CopyTo | cpcl/dynamic_memory_stream.cpp:119-134 | whatever the count and the receiver: it gets the bytes from the cursor on, as many as were asked for, as there are in the blocks, and as it takes |
| MemoryStream.Replay | cpcl/dynamic_memory_stream.cpp:119-192 | under every sequence of operations and every block size the block list answers and ends like a flat string with a cursor |
| MemoryStream.WritesAppend | cpcl/dynamic_memory_stream.cpp:147-160 | a series of writes appends their concatenation |
| MemoryStream.ReadsFinish | cpcl/dynamic_memory_stream.cpp:136-145 | reading in any portions gives everything once |
| MemoryStream.WrittenIsRead | cpcl/dynamic_memory_stream.cpp:136-160 | what was written in any pieces is read in any portions |
| TaskPool.WorkedConserves | webhdfs_image_proxy/task_pool.cpp:21-55 | a worker's step moves a task from one place to another and loses none |
| TaskPool.StepConserves | webhdfs_image_proxy/task_pool.cpp:57-65 | only a push adds a task, the next in number, in one place |
| TaskPool.StepInOrder | webhdfs_image_proxy/task_pool.cpp:67-74 | tasks are dequeued in the order in which they were accepted |
| TaskPool.StepWakes | webhdfs_image_proxy/task_pool.cpp:28-31 | no step leaves a worker asleep and not notified while there is a task or an exit request |
| TaskPool.StepKeeps | webhdfs_image_proxy/task_pool.cpp:21-100 | all of it, for one step of whatever thread |
| TaskPool.RunKeeps | webhdfs_image_proxy/task_pool.cpp:21-100 | and for every interleaving |
| TaskPool.RunsAreGood | webhdfs_image_proxy/task_pool.cpp:21-100 | in every interleaving each accepted task is in exactly one of queued, held, answered once or dropped; a sleeper not notified means an empty queue and no exit request |
| TaskPool.ExitStep | webhdfs_image_proxy/task_pool.cpp:32-34 | behind an exit request no step starts a rendering, and a reply uses up a worker that was about to send |
| TaskPool.RepliesAfterExit | webhdfs_image_proxy/task_pool.cpp:47-52 | at most one more reply per worker after the request |
| TaskPool.WorkersEnd | webhdfs_image_proxy/task_pool.cpp:21-55 | two steps of its own after the request, whatever is still pushed, and a worker is at its end |
| TaskPool.StopReturns | webhdfs_image_proxy/task_pool.cpp:80-100 | so the join comes through, and no reply follows it, ever |
| TaskPool.NoStarvation | webhdfs_image_proxy/task_pool.cpp:21-74 | a queued task leaves the queue within a bounded number of steps of any one worker, whatever the others do |
| TaskPoolObject.SharedPool.constructor | webhdfs_image_proxy/task_pool.cpp:9-19 | an empty pool satisfies the invariant |
| TaskPoolObject.SharedPool.Init | webhdfs_image_proxy/task_pool.cpp:9-19 | starts the workers once |
| TaskPoolObject.SharedPool.TestTask | webhdfs_image_proxy/task_pool.cpp:57-59 | the test in front of the lock |
| TaskPoolObject.SharedPool.PushTask | webhdfs_image_proxy/task_pool.cpp:61-64 | pushes and leaves no sleeper without notice |
| TaskPoolObject.SharedPool.NextTask | webhdfs_image_proxy/task_pool.cpp:67-74 | the head of the queue, or none |
| TaskPoolObject.SharedPool.Lock | webhdfs_image_proxy/task_pool.cpp:26-33 | one pass under the lock |
| TaskPoolObject.SharedPool.Render | webhdfs_image_proxy/task_pool.cpp:35-46 | 200, or 500 after an exception |
| TaskPoolObject.SharedPool.LookAgain | webhdfs_image_proxy/task_pool.cpp:47-50 | the second look at the flag |
| TaskPoolObject.SharedPool.Reply | webhdfs_image_proxy/task_pool.cpp:51-52 | no task is answered twice |
| TaskPoolObject.SharedPool.RequestExit | webhdfs_image_proxy/task_pool.cpp:84-92 | empties the queue, raises the flag, wakes everybody |
| TaskPoolObject.SharedPool.JoinAll | webhdfs_image_proxy/task_pool.cpp:93-99 | the threads are gone |
| Utf8.FoldLow | cpcl/string_util.h:174-190 | the six-bit groups put together again are the unit |
| Utf8.DecodeEncode | cpcl/string_util.h:166-191 | decoding undoes encoding if and only if the unit is below 0x800, in 0x1000-0xFFFF, 0x40000-0x1FFFFF, 0x1000000-0x3FFFFFF or at least 0x40000000; every other encoding is refused |
| Utf8.FoldParts | cpcl/string_util.h:179-191 | the payload bits of the bytes behind the first are the low groups of the unit |
| Utf8.EncodeDecode | cpcl/string_util.h:166-191 | a sequence that is accepted is the encoding of what it is decoded to if and only if its first byte is neither 0xC1 nor 0xFF |
| Utf8.Overlong | cpcl/string_util.h:179-191 | a sequence with each of these first bytes that is not |
| Utf8.UcToUtf | cpcl/string_util.h:166-176 | the loop writes the encoding and returns its length, none for a negative unit |
| Utf8.UtfToUc | cpcl/string_util.h:179-191 | the loops accept and decode what the specification does, with 32-bit wrap-around |
| Utf8.RoundTrip | cpcl/string_util.cpp:64-105 | a string of units comes back if and only if each is kept and within the limit; else it is refused |
| Utf8.ConvertString | cpcl/string_util.cpp:97-105 | the loop encodes everything |
| Utf8.FittingIsLongest | cpcl/string_util.h:214-228 | the prefix that fits is the longest of whole units |
| Utf8.ConvertBounded | cpcl/string_util.h:214-228 | the bounded loop writes exactly that prefix |
| Utf8.GreedyIsAll | cpcl/string_util.cpp:111-127 | with room for all nothing is skipped |
| Utf8.TryConvert | cpcl/string_util.cpp:111-127 | the required size, or -1 for a negative unit; the full encoding whenever it fits |
| Utf8.TryDecode | cpcl/string_util.cpp:64-78 | the loop decodes a whole string or refuses it |
| Utf8.TryDecodeInto | cpcl/string_util.cpp:80-95 | the number of units there are, of which those that fit are written, or -1 |

## Left out

- Callbacks that fail, `http_parser_pause`, F_SKIPBODY set by a callback, and what follows an upgrade: callbacks return 0 here, and a run stops at an upgrade.
- The call with length 0 is a method of its own (`HttpParserObject.HttpParser.Eof`) and takes no part in the theorems about fragments; the proxy never makes it.
- HttpParserObject.HttpParser.Execute: the struct is one value that is replaced at each character; bit-fields are not packed, their ranges are part of the invariant.
- HttpMessage.HeadersRead: a header line without a colon makes a field call and no value call, and runs into the next name; the arms for it are modelled and keep the invariant, the list of headers has none.
- HttpRequest.RequestLineRead: CONNECT, requests without a version and several blanks between the parts are read by the model but not covered by this statement.
- HttpMessage.NumberRead: the source fails numbers above 999; that such a line fails is not stated.
- Url offsets are unbounded, those of `struct http_parser_url` have 16 bits: the statements are about urls of at most 65535 bytes.
- HttpUrl.ParseUrl: a schema without a host makes the source read a field it has not set; that outcome is `Undefined` here.
- HttpLocation.SetLocation: a redirect with a schema and no host, where the source reads unset memory, is required away here; the connection treats it as a redirect without a host.
- The non-strict build of the parser and its character tables.
- Connection.RunsCacheTheBody: streams are values, so the cursor that two connections share on one cached stream is not modelled; the cache is a map to the last bytes put, without its queue and its lock timeout.
- ConnectionObject.Drive: the callbacks are made one after the other when the parser returns and not from within it; they cannot change how it goes on.
- ConnectionObject.ProxyConnection.ParseMore: nothing is said of the collector after input that was not accepted; the source does not look at it any more either.
- ConnectionObject.ProxyConnection.Receive: the image and the stream the collector writes to are one object in the source and two equal values here.
- ConnectionObject.ProxyConnection.PathOf: w, h and info of the query are not parsed; whether JSON is asked for and what describes the page are inputs.
- ConnectionObject.ProxyConnection.HandleReadRequest: what a socket reads into the buffer is an input of the handler; the buffer is modelled for what is written from it.
- ResponseBuilder.JsonText: the pixel format constants are not part of this model; the name of the format is looked up by its index.
- HttpCollectorObject.HttpCollector.constructor: the source initialises `content` with itself; here the stream is given.
- HttpCollectorObject.HttpCollector.OnBody: the stream is the flat one of `MemoryStream`; the failure for a missing stream is not modelled, as the proxy sets one before it parses.
- Sockets, resolver and acceptor: an asynchronous operation is an action that runs its handler with any outcome.
- Rendering, documents and pages: an outcome and the bytes of the rendered image are inputs; only exceptions the source catches occur.
- TaskPoolObject.SharedPool.Init: starting the threads is one step, and the test of `threads` in Stop is one step with its lock.
- CsvReaderObject.CsvReader.Next: null field pointers (which skip the trimming) are not modelled, a stream gives all it is asked for until it ends, and the rounding mask is written as a subtraction, which is the same for a power of two.
- ScopedBuffer.ScopedBuf.Release: giving memory back has no effect here; that `Data` is asked of an empty buffer is not an error.
- Utf8.TryConvert: sizes are unbounded, the source's are int; `could_be_utf` is not modelled.
- Utf8.TryDecodeInto: the source masks the room with INT_MAX, here it is taken as it is.
- Utf8.UtfToUc: the shift of an eight-byte sequence overflows a signed int in the source; it wraps here.
- Code page 1251, string-to-number casts, path helpers, file masks, file streams, tracing, timers, COM and libxml wrappers.
