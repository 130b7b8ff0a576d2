# A verified model of tiny_httpd

tiny_httpd is a thread-per-connection HTTP server that runs CGI programs for a small goods database. This
project models the two parts of it that carry real logic and proves what they are for.

**The request and CGI engine.** `LineReader` is `get_line` over a byte stream; `Headers` the two loops built on
it; `RequestLine` the tokeniser and the query split of `accept_request`; `Relay` the body relay and the read
loop at the program's end. `Connection` puts them together into one connection, with a log of everything the
parent does to the client socket, the served file and the pipe ends, under every choice of failing calls.
`CgiProtocol` is the concurrent part: any number of workers and children over bounded pipes, interleaved one
system call at a time, each fork copying whatever pipe ends and client connections are open in the server
at that moment. `DescriptorNumbers` is the same with descriptors as the code has them, numbers of one table, the
lowest free one being given out next, and says when calls by number are calls by name. `Forms`,
`GoodsQuery` and `MathAdd` are the programs at the other end; `EndToEnd` composes the layers from the bytes a
client sends to the statement a program executes. `Responses` writes out what clients get, error pages included,
`SqlReader` reads statements as SQL without knowing how they are printed, and `Agreement` ties the workers of
`CgiProtocol` to the log of the code.

**Word-level code in the bundled MySQL headers.** `ByteOrder` holds the little-endian loads and stores,
`TrailingSpace` both fast forms of `skip_trailing_space`, `Timespec` the deadline arithmetic. `CText` and
`Multiples` are shared helpers (C strings, `atoi`, decimal printing; multiples of a unit).

## What is proved

- **Concurrent exchanges** (`CgiProtocol`, `DescriptorNumbers`). A worker writes the whole body before it drains,
  and a child flushes a prefix before it reads. An exchange *fits* if its body fits the input pipe or its prefix
  fits the output pipe. By name, every run is finite, and a maximal run ends with every worker over if and only if
  every forked exchange fits: inherited descriptors delay an end of file but never close a cycle. When some
  exchange does not fit, exactly those workers are left behind whose own exchange does not fit or whose write end
  was inherited by a child that is stuck; and those clients see the end of their response whose worker is over and
  whose connection no stuck child inherited. In every state no byte is lost, duplicated or reordered, nobody
  writes to a pipe whose reader is gone, and no pipe end is closed twice.
- **Names and numbers** (`DescriptorNumbers`). After an error of its own a worker closes its client's number twice.
  As long as no second close finds its number taken, runs by number are runs by name and all of the above holds
  of them; in particular when no request is refused and no call fails. The table stays what the workers take it
  for if and only if no second close hits, and for any two requests there is a run in which the error of one cuts
  off the client of the other and its response is lost.
- **Streams.** `get_line` returns the longest piece of the normalised stream that fits, the concatenation of
  repeated calls does not depend on the buffer sizes, and both header loops stop, on the raw stream, at the place a
  description by whole lines gives, including the false end at a line whose length is a multiple of 1023.
- **Requests.** A printed POST with any headers is relayed byte for byte and arrives at its program; a printed
  GET hands over exactly its query. Both are stated of the code that reads the socket, under length bounds that
  keep it inside its buffers. Which requests start a program, which are answered with a file, and the text and
  closes of every error are given in full. Nothing is sent on a closed client socket.
- **Forms and queries.** Decoding inverts printing for any number of fields, of any characters but blanks, `&`, `=`
  and NUL, if and only if none is blank. A reader of SQL selects with the search query exactly the rows that pass
  every filter not left at its default, and the text determines its conditions. The same reader finds each posted
  field in its column of the update statement, and of the insert statement exactly when that determines its row.
- **Fast forms** equal the byte-by-byte loop for all inputs, and stores and loads are inverse at every width.

## Findings

- `Content-Length` is read from index 16 by `atoi`. The value is right if and only if it is below 2^31 and at least
  one blank follows the colon or the skipped digit is a zero (`Headers.LengthFieldExact`). `Content-Length:5` is
  read as 0 (`Headers.UnspacedLengthIsMisread`), `Content-Length: 4294967301` as 5 and `Content-Length: 4294967295`
  as -1 (`Headers.LongLengthsAreCut`). Field values may follow the colon directly in RFC 1945, section 4.2.
- The name test compares 14 characters, so the colon is not checked. It is right if and only if the name is not a
  longer one that starts with `Content-Length` (`Headers.LengthNameExact`); `Content-Length-Range: 9` sets the
  length to 0 (`Headers.LongerNameIsTaken`).
- The header loops stop at the blank line if and only if no header is a multiple of 1023 bytes long, since the
  LF of such a line arrives alone (`Headers.HeadersRoundTrip`); `Headers.LongHeaderEndsEarly` is an input.
- A header of more than 1023 bytes is looked at once per buffer it fills. It leaves the length alone if and only
  if no such piece starts with the name (`Headers.SilentExact`); `Headers.LengthInsideHeader` is an input.
- When `exe_cgi` or `echo_html` reports an error, the client socket is closed twice
  (`Connection.ConnectionDiscipline` gives the exact condition); `Content-Length: -1` does it without a failing
  call (`EndToEnd.CloseTwice`). The second close goes to a number that another request may have been given in the
  meantime (`DescriptorNumbers.ErrorCutsOffAnother`, `DescriptorNumbers.ResponseIsLost`).
- A blank form field makes the decoders take the next field's name for its value (`Forms.BlankValue`).
- An insert statement determines its row if and only if no field contains a separator that could be taken for one
  of the statement's (`GoodsQuery.InsertDetermines`); `GoodsQuery.TwoRowsOneStatement` has two rows that print
  the same.
- A reader of quotes finds in a search query the texts it means to quote if and only if no value contains a quote
  (`GoodsQuery.LiteralsExact`); `GoodsQuery.SizeWithQuotes` is an input.
- The tokeniser stays inside its buffer if and only if a blank follows the URL (`RequestLine.StaysInside`), which
  an empty connection does not provide (`Connection.EmptyConnection`); the buffers take a GET for a program if
  and only if its path fits and its query has at most 1010 bytes (`EndToEnd.GetFits`).
- A comment at httpd.c:333 says the main page is served for a URL ending in a slash; the code tests for a
  backslash, and the model follows the code.
- `accept_request` tests the result of `get_line` for being negative; `LineReader.GetLine` shows it never is,
  so that branch is not modelled.
- Deadlines are exact if and only if the tick count does not wrap (`Timespec.Time.SetNsec`).

## Conventions

Bytes of text streams are `char`; nothing depends on their range. Word-level bytes are integers from 0 to 255,
and every C conversion and wrap-around is written out. `atoi` follows the GNU library: saturating `strtol`, cast
to `int`. `recv` reads from a byte sequence with permanent end of input, `send` always succeeds, and `stat`,
`open`, `sendfile`, `pipe` and `fork` succeed or fail as `Connection.Outcomes` or a move's `ok` says. A
precondition is stated where the source would otherwise leave its buffers or overflow an `int`.

## Model

| member | source | states |
|---|---|---|
| DescriptorNumbers.UnhitConservation | httpd.c:227-238 | in every state of every run in which no second close hits: read by the child ++ input pipe ++ still to relay is the body, and client ++ status line if unsent ++ output pipe ++ still to write is status line ++ output; no pipe exceeds its capacity |
| DescriptorNumbers.UnhitMaximalRuns | httpd.c:169-243 | for N concurrent exchanges with arbitrary inheritance and failing calls, where no second close hits: a maximal run ends with every worker over iff every forked exchange fits; a forked worker finishes iff its exchange fits and no stuck child inherited its write end; a client sees the end iff its worker is over and no stuck child inherited its connection |
| DescriptorNumbers.UnhitPeersStayConnected | httpd.c:200-242 | in such runs a worker that writes has a live reader, a child that writes has a reader, a child that waits for body bytes never meets end of file |
| DescriptorNumbers.UnhitDescriptors | httpd.c:173-192 | in such runs every number leads to the descriptor it was given for; pipe ends are closed once, the connection of a failed worker twice |
| DescriptorNumbers.EveryoneIsServedByNumber | httpd.c:412-422 | if all exchanges fit, none is refused and no call fails, every maximal run serves every client completely and leaves no number open |
| DescriptorNumbers.ErrorFreeIsUnhit | httpd.c:157-192 | without an error of a worker no second close hits, and the runs by number and by name are the same |
| DescriptorNumbers.StepsAgree | httpd.c:169-243 | every call by number, with reads, writes, sends and closes going where the number leads, does what the call by name does, unless it is a second close that hits |
| DescriptorNumbers.Refines | httpd.c:169-243 | a run by number without a hit is the run by name, state by state |
| DescriptorNumbers.MaximalAlike | httpd.c:169-243 | and it is maximal iff the run by name is |
| DescriptorNumbers.IntactExact | httpd.c:366 | the table is what the workers take it for throughout a run iff no second close hits |
| DescriptorNumbers.HitRobs | httpd.c:101-366 | a second close that hits shuts a descriptor that another worker holds |
| DescriptorNumbers.ErrorCutsOffAnother | httpd.c:412-422 | for any two requests some run does so, cutting off the client of the second; if the first is refused, without a failing call |
| DescriptorNumbers.ResponseIsLost | httpd.c:163-167 | and in its continuation the status line of the second reaches nobody and conservation fails |
| CgiProtocol.FinishedExchange | httpd.c:223-243 | a worker past `waitpid` has given its client exactly status line ++ output, its child read exactly the relayed body and has exited, and the exchange fits |
| CgiProtocol.WhoFinishes | httpd.c:235-242 | in a maximal run a forked worker finishes iff its exchange fits and no child of an unfitting exchange inherited its output write end |
| CgiProtocol.WhoSeesTheEnd | httpd.c:187-242 | in a maximal run a client sees the end of its response iff its worker is over and no child of an unfitting exchange inherited its connection |
| CgiProtocol.UnfitExchangeGetsStuck | httpd.c:229-238 | an exchange that does not fit ends with worker and child each blocked in front of a full pipe |
| CgiProtocol.SingleExchange | httpd.c:223-243 | one exchange alone finishes iff body fits the input pipe or prefix fits the output pipe |
| CgiProtocol.EveryoneIsServed | httpd.c:412-422 | the same by name: if all exchanges fit, none is refused and no call fails, every maximal run serves every client completely, up to the end of its connection |
| CgiProtocol.RunsAreFinite | httpd.c:169-243 | no run makes more moves than the initial rank: a measure decreases with every system call |
| CgiProtocol.RunsExtend | httpd.c:169-243 | every run can be continued to a maximal one |
| CgiProtocol.NextKeepsInv | httpd.c:169-243 | by name, the inductive invariant over control, data and descriptor table is kept by every move |
| CgiProtocol.DescriptorDiscipline | httpd.c:173-366 | calls of close by the time a worker is over: one for each end created, one for the connection, two for the connection of a worker that failed |
| CgiProtocol.EofIsFinal | httpd.c:236-240 | after a drain loop saw end of file no process holds or will inherit a write end |
| CgiProtocol.EndStaysSeen | httpd.c:187-242 | once a client sees the end, no later fork gives anyone the connection back |
| CgiProtocol.EffectOnTable | httpd.c:173-366 | a worker's move opens only ends never created before and closes only ends that are open, but for the second close after an error |
| Agreement.FinishedFollowsTheCode | httpd.c:169-366 | in every run a worker that finishes has opened and closed, in this order, what the log of a served program shows |
| Agreement.FailedFollowsTheCode | httpd.c:101-366 | a worker that failed has opened and closed what the log of a program that was not started shows |
| CgiProtocol.RelayStep | httpd.c:230-233 | one recv and write extend the relayed part of the body by its next byte |
| CgiProtocol.ChildFlushesOutput | htdocs/cgi_bin/add_god_cgi.cpp:49-50 | flushing the prefix byte by byte keeps output conserved |
| CgiProtocol.ChildKeepsInput | htdocs/cgi_bin/add_god_cgi.cpp:56-58 | reading one byte moves it from the pipe to the body read so far |
| LineReader.GetLine | httpd.c:15-41 | the buffer gets the line, a NUL behind it and nothing else; the socket keeps the rest; null buffer or negative size do nothing |
| LineReader.FoldCR | httpd.c:26-33 | CR, alone or with the LF behind it, becomes one LF and exactly those bytes are consumed |
| LineReader.GetLineRefinesNorm | httpd.c:15-41 | the line is the unique longest piece of at most max_len-1 bytes that starts the normalised stream |
| LineReader.LineSplitsNorm | httpd.c:15-41 | normalised input = line ++ normalised rest; an empty line means no room or end of input |
| LineReader.BufferSizesDoNotMatter | httpd.c:252-254 | repeated calls until 0 concatenate to the normalised input whatever the buffer sizes |
| LineReader.NormIdempotent | httpd.c:26-33 | normalising twice changes nothing |
| LineReader.NormFolds | httpd.c:26-33 | LF, CRLF and CR with anything but LF behind it each become one LF |
| Headers.ClearHeader | httpd.c:247-255 | leaves the socket where the header ends |
| Headers.ReadPostHeader | httpd.c:149-155 | leaves the socket at the same position as `clear_header` and returns the announced length |
| Headers.LineInBuffer | httpd.c:150-154 | testing and parsing the zeroed buffer sees only the line just read |
| Headers.HeaderEnd | httpd.c:252-254 | both loops stop, on the raw stream, right behind the earliest of the blank line, a line of k*1023 bytes, end of input |
| Headers.HeaderIsPrefix | httpd.c:247-255 | a header loop only takes bytes off the front of the stream |
| Headers.HeadersRoundTrip | httpd.c:149-155 | on printed headers of any length, a blank line and anything behind, the loops stop exactly there iff no header is a multiple of 1023 bytes long |
| Headers.FalseEnd | httpd.c:252-254 | where they stop otherwise: behind the first such header |
| Headers.LongHeaderEndsEarly | httpd.c:252-254 | a concrete request whose header ends early |
| Headers.LengthRoundTrip | httpd.c:149-155 | the length returned for printed headers is the one their pieces announce |
| Headers.SilentExact | httpd.c:150-154 | a header leaves every length alone iff no buffer it fills starts with the name |
| Headers.LengthInsideHeader | httpd.c:150-154 | a concrete long header of another name that sets the length |
| Headers.LastLengthWins | httpd.c:152-154 | the last header naming the length decides |
| Headers.LengthFieldExact | httpd.c:152-153 | the length is parsed right iff it is below 2^31, and a blank follows the colon or the skipped digit is 0 |
| Headers.SpacedLengthWraps | httpd.c:153 | a spaced length of any size is read as its value saturated at 64 bits and cut to 32 |
| Headers.LongLengthsAreCut | httpd.c:153-160 | concrete lengths read as 5 and as -1 |
| Headers.UnspacedLengthIsMisread | httpd.c:153 | a concrete header whose length is misread |
| Headers.LengthNameExact | httpd.c:152 | the name test is right iff the name is not longer than, and starting with, the one looked for |
| Headers.LengthNameInAnyCase | httpd.c:152 | a name of 14 characters is taken for the length iff each is that of Content-Length or the same letter with its code 32 away (RFC 1945, section 4.2) |
| Headers.LengthInTwoCases | httpd.c:152-153 | content-length and CONTENT-LENGTH set the length |
| Headers.LongerNameIsTaken | httpd.c:152-153 | a concrete header of another name that sets the length to 0 |
| RequestLine.Tokenise | httpd.c:288-302 | the method and url buffers hold the two tokens of the line, padded with NULs |
| RequestLine.CopyToken | httpd.c:291-293 | one copying loop takes the longest token that fits and stays inside the buffer |
| RequestLine.SkipBlanks | httpd.c:295-297 | the blanks in front of the URL are skipped |
| RequestLine.RequestLineRoundTrip | httpd.c:288-302 | a printed method, blanks, URL, blank and tail parse back to method and URL |
| RequestLine.StaysInside | httpd.c:291-302 | the highest position tested is inside the buffer iff a blank follows the URL |
| RequestLine.PathFitsExact | httpd.c:329-344 | the file name fits its buffer iff the URL path keeps within the stated length |
| RequestLine.TargetTexts | httpd.c:329-345 | the file name of a path, of a directory and of a path ending in a backslash, as texts |
| RequestLine.SplitQuery | httpd.c:314-325 | path and query of the C string in the buffer; cgi iff there is a question mark |
| RequestLine.QueryRebuilds | httpd.c:316-325 | the path has no question mark and path ++ "?" ++ query is the URL when it had one |
| RequestLine.QueryUnique | httpd.c:316-325 | any path without question mark and any query are recovered from their join |
| Relay.RelayBody | httpd.c:227-234 | the pipe gets the remaining bytes, then copies of the last byte seen (NUL if none), for a non-negative length; the socket loses only the bytes relayed |
| Relay.RelayOneMore | httpd.c:230-233 | the closed form grows by the byte a recv would leave in `c` |
| Relay.FullBody | httpd.c:227-234 | a complete body is relayed byte for byte, the socket is left behind it |
| Relay.ReadPostData | htdocs/cgi_bin/add_god_cgi.cpp:54-59 | the program's buffer holds the body and a NUL, the rest of buffer and pipe unchanged |
| Connection.Session.AcceptRequest | httpd.c:257-368 | for every input that has a blank behind its URL and fits the buffers, and every choice of failures: the log is disciplined and is the stated one, and so is what is left on the socket |
| Connection.Session.Route | httpd.c:303-368 | from the method check on, whatever fails: nothing is sent after the first close, the client is closed once or, after an inner error, twice, and ends and file are each closed once after their opening |
| Connection.EmptyConnection | httpd.c:283-302 | a connection that delivers nothing is outside that condition |
| Connection.Session.ReadRequest | httpd.c:283-325 | the request as read, cut and split |
| Connection.Session.ExeCgi | httpd.c:140-167 | header loop by method, the -1 guard, status line, then the pipes |
| Connection.Session.RunChild | httpd.c:169-243 | whatever fails, each end created is closed once, later, and an error closes the client once with nothing sent behind it |
| Connection.Session.Converse | httpd.c:223-243 | spawn, close two ends, feed the body, drain, close the other two |
| Connection.Session.EchoHtml | httpd.c:110-138 | the file is opened and closed once, in this order, and an error closes the client once with nothing sent behind it |
| Connection.ConnectionDiscipline | httpd.c:257-368 | nothing is sent after the first close; the client is closed once, twice iff an inner error was reported; pipe ends and file are opened at most once and closed exactly as often, each after its opening |
| Connection.SuccessfulResponse | httpd.c:303-363 | without error the client gets "HTTP/1.0 200 OK" and a blank line, then the output of the program for a POST, a query or an executable file, and the file otherwise |
| EndToEnd.RequestLineParsed | httpd.c:283-325 | from raw bytes: a printed request line yields its method, path and query |
| EndToEnd.PostBody | httpd.c:149-155 | length read from the header, loop stops before the body, relay hands on exactly the body |
| EndToEnd.PostServed | httpd.c:194-238 | a printed POST whose path fits keeps inside all buffers; its program is started with the body's length and fed exactly the body (RFC 3875, sections 4.1.2 and 4.2), the socket is left behind it, and the whole log is given |
| EndToEnd.ServePost | httpd.c:257-368 | the same as a contract of the code, from the bytes on the socket |
| EndToEnd.GetServed | httpd.c:209-214 | a printed GET whose path fits and whose query has at most 1010 bytes starts its program with exactly that query (RFC 3875, section 4.1.7) |
| EndToEnd.ServeGet | httpd.c:257-368 | the same as a contract of the code, from the bytes on the socket |
| EndToEnd.GetFits | httpd.c:213 | those bounds are exact for a GET whose program is started |
| Responses.ServeExecutable | httpd.c:346-363 | a GET without a query for an executable file that is no directory starts it with an empty query; the whole log |
| Responses.ServeFile | httpd.c:343-363 | a GET without a query for a directory or a file that is not executable gets open, status line, file, close and nothing else; no program is started |
| Responses.RefuseMethod | httpd.c:303-307 | any other method gets the page of status 400, and nothing behind the request line is read |
| Responses.ReportMissing | httpd.c:337-341 | a missing target gets the page of status 404 behind the header |
| Responses.MissingProgram | httpd.c:337-341 | the same for a GET with a query |
| Responses.MissingPost | httpd.c:337-341 | the same for a POST, whose body stays on the socket |
| Responses.FileNotOpened | httpd.c:116-121 | a file that cannot be opened: status 404, the client closed twice |
| Responses.FileNotSent | httpd.c:122-136 | a file that cannot be sent: status 500 behind the line of success, the client closed twice |
| Responses.ExecutableNotStarted | httpd.c:173-192 | failing pipes or fork: the exact log with status 500, every end closed, for an executable file |
| Responses.GetNotStarted | httpd.c:173-192 | the same for a GET with a query |
| Responses.PostNotStarted | httpd.c:173-192 | the same for a POST, whose body stays on the socket |
| EndToEnd.CloseTwice | httpd.c:157-160 | a concrete POST whose client is closed twice without a failing call |
| EndToEnd.PostsReachTheirPrograms | httpd.c:412-422 | any number of concurrent POSTs: every program reads exactly the body its client posted and every client gets its program's output |
| EndToEnd.AddGoodsProgram | htdocs/cgi_bin/add_god_cgi.cpp:53-61 | the program's statement inserts the row of the four posted values, each in its column, unambiguously iff the row allows it |
| EndToEnd.ChangeGoodsProgram | htdocs/cgi_bin/change_god_cgi.cpp:139-147 | the program's statement changes the row of the five posted values and has no other reading by words |
| EndToEnd.SearchProgram | htdocs/cgi_bin/god_list_cgi.cpp:194-206 | a reader of SQL selects with the query exactly the rows that pass the posted filters |
| EndToEnd.MathProgram | htdocs/cgi_bin/math_cgi.c:55-62 | the sum of the two numbers of the posted form |
| EndToEnd.PostedRowIsInserted | htdocs/cgi_bin/add_god_cgi.cpp:13-30 | the posted values are the row's, and their statement determines the row iff no field contains a separator |
| EndToEnd.PostedRowIsChanged | htdocs/cgi_bin/change_god_cgi.cpp:63-82 | the first field selects the row, the others are its new contents, and the statement determines them all |
| EndToEnd.PostedNumbersAreAdded | htdocs/cgi_bin/math_cgi.c:10-30 | two printed ints posted by a client arrive with their sum, and the program can add them iff that is an int |
| EndToEnd.InsertPosted | htdocs/cgi_bin/add_god_cgi.cpp:53-61 | server and program composed: a row posted in at most 1023 bytes is the row of the statement executed |
| EndToEnd.ChangePosted | htdocs/cgi_bin/change_god_cgi.cpp:139-147 | the same for changing a row |
| EndToEnd.AddPosted | htdocs/cgi_bin/math_cgi.c:55-62 | the same for two ints whose sum is one |
| EndToEnd.SearchPosted | htdocs/cgi_bin/god_list_cgi.cpp:194-206 | the same for a search form with all six fields |
| Forms.ReplaceSeparators | htdocs/cgi_bin/add_god_cgi.cpp:13-17 | every `&` and `=` of the C string becomes a space in place, every other character and the rest of the buffer stay |
| Forms.FormRoundTrip | htdocs/cgi_bin/god_list_cgi.cpp:126-131 | for any number of pairs of any characters but blanks, `&`, `=` and NUL, scanning n values of the printed form gives the first n (or all) values iff none of them is blank |
| Forms.VisibleIsClean | htdocs/cgi_bin/add_god_cgi.cpp:13-17 | any visible ASCII characters but `&` and `=` make a token these results cover |
| Forms.BlankValue | htdocs/cgi_bin/god_list_cgi.cpp:131 | a blank value is replaced by the next key, or ends the scan |
| Forms.FormHasWords | htdocs/cgi_bin/god_list_cgi.cpp:126-131 | the words of a spaced form are its keys and its values that are not blank |
| Forms.ScanTakesSecondWords | htdocs/cgi_bin/god_list_cgi.cpp:131 | on any text the scan takes every second word |
| Forms.PairStep | htdocs/cgi_bin/god_list_cgi.cpp:131 | one pair leaves its key and, unless blank, its value in front of the rest |
| GoodsQuery.AddGoods | htdocs/cgi_bin/add_god_cgi.cpp:13-30 | the statement inserts the four scanned values, each in its column, and determines them iff no field contains a separator |
| GoodsQuery.InsertDetermines | htdocs/cgi_bin/add_god_cgi.cpp:19-30 | no other row prints the same insert statement iff no field contains a separator of the statement's |
| GoodsQuery.InsertIsRead | htdocs/cgi_bin/add_god_cgi.cpp:19-30 | a reader that pairs the k-th column with the k-th value finds name, type, price and size in theirs |
| GoodsQuery.TwoRowsOneStatement | htdocs/cgi_bin/add_god_cgi.cpp:19-30 | two clean rows that print the same statement |
| GoodsQuery.ChangeGoods | htdocs/cgi_bin/change_god_cgi.cpp:63-82 | the statement gives the row of the scanned key the scanned contents, each in its column, and has no other reading by words |
| GoodsQuery.UpdateDetermines | htdocs/cgi_bin/change_god_cgi.cpp:69-82 | fields without white space are determined by the update statement |
| GoodsQuery.UpdateIsRead | htdocs/cgi_bin/change_god_cgi.cpp:69-82 | a reader of column=value words finds each field in its column and the key behind where |
| GoodsQuery.FilledForm | htdocs/cgi_bin/add_god_cgi.cpp:18 | a form filled in with clean values is scannable and gives them back in order |
| GoodsQuery.GetSelectSql | htdocs/cgi_bin/god_list_cgi.cpp:114-165 | no data selects everything; otherwise a reader of SQL selects with the text exactly the rows passing the six scanned filters |
| GoodsQuery.BuildWhere | htdocs/cgi_bin/god_list_cgi.cpp:132-162 | the text grown by `+=` renders exactly the conditions of the filters that are set |
| GoodsQuery.WhereMeaning | htdocs/cgi_bin/god_list_cgi.cpp:132-162 | a row satisfies the clause iff it passes every one of the six independent filters, however numbers are read |
| GoodsQuery.QuerySelects | htdocs/cgi_bin/god_list_cgi.cpp:132-162 | read word by word, the text of a query selects the rows that satisfy its conditions |
| GoodsQuery.OneFilter | htdocs/cgi_bin/god_list_cgi.cpp:133-162 | with every field at its default every row passes, with one field set those it asks for |
| GoodsQuery.TextDetermines | htdocs/cgi_bin/god_list_cgi.cpp:132-162 | the text determines its conditions, for any list of conditions on words |
| GoodsQuery.LiteralsExact | htdocs/cgi_bin/god_list_cgi.cpp:137-162 | the quoted texts found by a reader of quotes are those the conditions mean iff no value contains a quote |
| GoodsQuery.SizeWithQuotes | htdocs/cgi_bin/god_list_cgi.cpp:158-162 | a concrete clean size that is not read as meant |
| GoodsQuery.BuildPrice | htdocs/cgi_bin/god_list_cgi.cpp:146-157 | the three-way branch appends the text of the price conditions |
| GoodsQuery.PriceMeaning | htdocs/cgi_bin/god_list_cgi.cpp:146-157 | the three-way price branch equals two independent bounds |
| GoodsQuery.LikeInfix | htdocs/cgi_bin/god_list_cgi.cpp:138-140 | LIKE '%v%' holds iff some stretch of the name matches v |
| GoodsQuery.PlainNameFilter | htdocs/cgi_bin/god_list_cgi.cpp:137-141 | without wildcards the name filter means: occurs in the name |
| GoodsQuery.EnsureSize | htdocs/cgi_bin/god_list_cgi.cpp:200-203 | a form without size gets the default appended in place |
| GoodsQuery.FullSearchForm | htdocs/cgi_bin/god_list_cgi.cpp:131 | a filled search form is understood field by field |
| GoodsQuery.FullSearchFormWithSize | htdocs/cgi_bin/god_list_cgi.cpp:200-206 | also when the default size is appended behind it |
| GoodsQuery.SearchFormWithoutSize | htdocs/cgi_bin/god_list_cgi.cpp:200-206 | without a size button the size is not restricted, whatever the other fields contain |
| MathAdd.Scan | htdocs/cgi_bin/math_cgi.c:13-27 | the pointers end behind the first two `=`; exactly the `&` before the second become NUL |
| MathAdd.AddForm | htdocs/cgi_bin/math_cgi.c:10-30 | the sum of the two texts `atoi` is given |
| MathAdd.AddRoundTrip | htdocs/cgi_bin/math_cgi.c:10-30 | a printed two-field form yields both numbers and their sum |
| CText.AtoiPrintInt | htdocs/cgi_bin/math_cgi.c:28-29 | `atoi` inverts decimal printing on every int, whatever non-digit follows |
| CText.AtoiStopsAtNul | httpd.c:153 | what follows a NUL is invisible to `atoi` |
| CText.AtoiSigned | htdocs/cgi_bin/math_cgi.c:28-29 | with a sign in front the number or its negative is read, saturated and cut |
| CText.ToInt32Exact | htdocs/cgi_bin/math_cgi.c:28-29 | the cast of a parsed number to `int` keeps it modulo 2^32 |
| CText.DigitsExact | htdocs/cgi_bin/math_cgi.c:28-29 | the digits are the ten ASCII ones with their values |
| CText.SameIgnoringCaseExact | httpd.c:304 | texts are equal ignoring case iff each character is the same or the same letter with its code 32 away |
| CText.IsSpaceExact | httpd.c:291 | the characters that separate words are the six blanks of ASCII |
| ByteOrder.Load2 | htdocs/cgi_bin/mysql_lib/include/byte_order_generic.h:20-44 | 2-byte loads are base 256, signed and unsigned |
| ByteOrder.Load3 | htdocs/cgi_bin/mysql_lib/include/my_byteorder.h:45-52 | the 3-byte load is base 256 |
| ByteOrder.Load3Signed | htdocs/cgi_bin/mysql_lib/include/my_byteorder.h:31-43 | `sint3korr` is `uint3korr` minus 2^24 exactly when the top bit is set |
| ByteOrder.Load4 | htdocs/cgi_bin/mysql_lib/include/byte_order_generic.h:28-54 | 4-byte loads are base 256, signed and unsigned |
| ByteOrder.Load5 | htdocs/cgi_bin/mysql_lib/include/my_byteorder.h:54-63 | the 5-byte load is base 256 |
| ByteOrder.Load6 | htdocs/cgi_bin/mysql_lib/include/my_byteorder.h:65-75 | the 6-byte load is base 256 |
| ByteOrder.Load8 | htdocs/cgi_bin/mysql_lib/include/byte_order_generic.h:56-74 | the 8-byte loads are base 256 |
| ByteOrder.Int2Store | htdocs/cgi_bin/mysql_lib/include/byte_order_generic.h:76-81 | writes the two base-256 digits and nothing else |
| ByteOrder.Int3Store | htdocs/cgi_bin/mysql_lib/include/my_byteorder.h:77-82 | writes the low three digits and nothing else |
| ByteOrder.Int4Store | htdocs/cgi_bin/mysql_lib/include/byte_order_generic.h:83-89 | writes the four digits and nothing else |
| ByteOrder.Int5Store | htdocs/cgi_bin/mysql_lib/include/my_byteorder.h:84-91 | writes the low five digits and nothing else |
| ByteOrder.Int6Store | htdocs/cgi_bin/mysql_lib/include/my_byteorder.h:93-101 | writes the low six digits and nothing else |
| ByteOrder.Int8Store | htdocs/cgi_bin/mysql_lib/include/byte_order_generic.h:91-97 | two 4-byte stores write the eight digits and nothing else |
| ByteOrder.UnsignedRoundTrip | htdocs/cgi_bin/mysql_lib/include/my_byteorder.h:45-101 | store then load is the value modulo 256^k for k = 2, 3, 4, 5, 6, 8 |
| ByteOrder.SignedRoundTrip | htdocs/cgi_bin/mysql_lib/include/my_byteorder.h:31-82 | signed values survive store and load, three bytes on [-2^23, 2^23) |
| ByteOrder.LoadStore | htdocs/cgi_bin/mysql_lib/include/byte_order_generic.h:46-89 | load then store restores the bytes |
| ByteOrder.LoadInjective | htdocs/cgi_bin/mysql_lib/include/byte_order_generic.h:46-69 | loads are injective |
| TrailingSpace.SkipTrailingSpace | htdocs/cgi_bin/mysql_lib/include/m_string.h:318-330 | the 8-byte form equals the byte loop for every string |
| TrailingSpace.SkipTrailingSpaceAligned | htdocs/cgi_bin/mysql_lib/include/m_string.h:281-311 | the aligned form equals the byte loop for every address, length, content, word size and byte order; its assertion holds |
| TrailingSpace.SkipWords | htdocs/cgi_bin/mysql_lib/include/m_string.h:304-306 | every word load is aligned and inside the string; only spaces are skipped |
| TrailingSpace.TrimmedLengthIs | htdocs/cgi_bin/mysql_lib/include/m_string.h:308-310 | the byte loop finds the one position with only spaces behind and no space before it |
| TrailingSpace.SpaceWord8 | htdocs/cgi_bin/mysql_lib/include/m_string.h:323 | `uint8korr` gives 0x2020202020202020 iff all eight bytes are spaces |
| TrailingSpace.SpaceWord | htdocs/cgi_bin/mysql_lib/include/m_string.h:305 | an aligned word equals SPACE_INT iff all its bytes are spaces |
| Timespec.Time.SetNsec | htdocs/cgi_bin/mysql_lib/include/my_global.h:672-677 | the result is normalised, and exact iff the tick count does not wrap |
| Timespec.Time.SetSec | htdocs/cgi_bin/mysql_lib/include/my_global.h:686-689 | exact iff neither the product nor the tick count wraps |
| Timespec.DeadlineExact | htdocs/cgi_bin/mysql_lib/include/my_global.h:675-677 | splitting ticks loses nothing; only wrapping can |
| Timespec.Compare | htdocs/cgi_bin/mysql_lib/include/my_global.h:698-714 | on normalised times the total order of the instants |
| Timespec.Difference | htdocs/cgi_bin/mysql_lib/include/my_global.h:716-720 | the difference modulo 2^64, exact iff it is an unsigned 64-bit value |

## Left out

- Socket set-up, `bind`, `listen`, `accept`, logging and debug output: system calls without logic.
- Signals, a failing `execl`, and programs that exit without reading their body; the child of `CgiProtocol` reads all of it, as the programs here do.
- `CgiProtocol` counts pipe capacity in bytes and writes one byte per move; page granularity and atomic multi-byte writes are not modelled. The relay's `recv` and `write` are one move, since the socket belongs to one worker.
- Error pages of failing workers appear in `Connection` only. A request that ends in an error before its first pipe is a refused one in `CgiProtocol`; static pages and the files they open take no numbers in `DescriptorNumbers`.
- What becomes of a run after a second close has hit is modelled call by call in `DescriptorNumbers`, except that a write nobody reads raises no signal and a program's input or output that its worker's numbers no longer name is empty or lost; no general result is stated about such runs.
- `Connection` takes the program's output as given; `CgiProtocol` and `EndToEnd.PostsReachTheirPrograms` say which output that is.
- The file system behind `stat`, and what `sendfile` sends beyond "the file".
- `sql_connect.cpp` and the database: a statement's text is built, rows give conditions their meaning, SQL is not parsed. `LIKE` has no escapes, numbers are read by an arbitrary function, strings compare exactly.
- Percent-decoding (the programs do none), HTML and CSS output, `demo_client.c`, `debug_cgi.c`, the other small programs.
- Native-load x86 variants, floating-point byte order, big-endian macros, and the remaining MySQL headers: casts, declarations or instrumentation without algorithms.
- The Windows branches of the deadline functions.
