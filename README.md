# aws-lambda-java-runtime, modelled in Dafny

This project models a custom runtime bootstrap for AWS Lambda, written in Java. The bootstrap does the following:
- It reads the runtime API address and the handler name (`<class>::<method>`) from the environment.
- It resolves the handler.
- It then repeatedly polls `http://<api>/2018-06-01/runtime/invocation/next` and posts either a response or a JSON error back to the runtime API.

Underneath it is a small non-blocking HTTP/1.0 client. Its parts are:
- an ordered, case-insensitive-on-insert header multimap (`HttpHeaders`);
- requests that render their own preamble and write their body (`HttpRequest`, `StringHttpRequest`);
- a per-connection state machine (`HttpStateType`, `HttpState`);
- a selector loop (`HttpClient.waitAll`) that drives every registered socket until none is left.

The Dafny modules follow that structure:

| module | file | what it holds |
|---|---|---|
| `Wrappers` | wrappers.dfy | `Option` and `Result` |
| `Text` | text.dfy | ASCII lower-casing, `String.valueOf` for naturals, `String.join`, `String.split` with a literal separator, US-ASCII and UTF-8 encodings, `String.length()` in UTF-16 units |
| `Headers` | headers.dfy | the multimap as a value (`HeaderMap`, `Added`) and the mutable class `HttpHeaders` proved against it |
| `Request` | request.dfy | `Uri`, `GetPort`, the preamble as a value, `writeEntity` as a value, and the class `HttpRequest` whose constructors and methods are proved against them |
| `Connection` | connection.dfy | the per-key step of `waitAll` as a transition function `Next` over abstract readiness events, its invariant, and whole-exchange lemmas |
| `Client` | client.dfy | the classes `HttpState`, `Channel` (socket plus selection key) and `HttpClient`, whose `Request` and `Dispatch` are proved against `Connection.Next`, and whose `WaitAll` ends each channel where `Connection.Run` takes it over the events selected for it |
| `MessageFormat` | format.dfy | the part of `java.text.MessageFormat.format` the bootstrap uses: quoting, `''`, `{n}` |
| `Bootstrap` | bootstrap.dfy | the URL templates, the error body, `getHeaderValue`, the handler split, `getHandlerMethod`, and `main`'s sequence of requests |

## Model

| member | source | states |
|---|---|---|
| Text.LowerIsLowerCase | src/main/java/com/github/mercurievv/aws/lambda/nio/HttpHeaders.java:13 | a lower-cased name holds no upper-case letter, and lower-casing a lower-case name leaves it unchanged |
| Text.Lower | src/main/java/com/github/mercurievv/aws/lambda/nio/HttpHeaders.java:13 | `toLowerCase` on ASCII letters, as a definition; its properties are the `Text.LowerIsLowerCase` and `Text.UpperIsNotLowered` rows |
| Text.UpperIsNotLowered | src/main/java/com/github/mercurievv/aws/lambda/nio/HttpHeaders.java:13 | a string with an upper-case letter is never the lower-cased form of any name, so it is never a stored key |
| Text.DecimalRoundTrip | src/main/java/com/github/mercurievv/aws/lambda/nio/HttpClient.java:34 | the decimal text written into Content-Length reads back as the number it was made from |
| Text.Decimal | src/main/java/com/github/mercurievv/aws/lambda/nio/HttpClient.java:34 | `String.valueOf` of a natural number, the definition; its property is the `Text.DecimalRoundTrip` row |
| Text.IndexOf | src/main/java/com/ata/aws/lambda/LambdaBootstrap.java:37 | the separator search succeeds exactly when the separator occurs in the string |
| Text.SplitWithoutSeparator | src/main/java/com/ata/aws/lambda/LambdaBootstrap.java:37 | splitting a string that does not contain the separator gives the string alone |
| Text.JavaSplit | src/main/java/com/ata/aws/lambda/LambdaBootstrap.java:37 | `String.split` with a literal separator, as a definition: the input alone when the separator is absent, otherwise the pieces with trailing empty pieces dropped; its properties are the `Text.SplitWithoutSeparator`, `Bootstrap.HandlerPartsSplit` and `Bootstrap.HandlerWithoutSeparator` rows |
| Text.SplitJoin | src/main/java/com/ata/aws/lambda/LambdaBootstrap.java:179 | joining values with a character none of them contains, then splitting on every occurrence of that character while keeping empty pieces, gives the values back in order |
| Text.Join | src/main/java/com/ata/aws/lambda/LambdaBootstrap.java:179 | `String.join`, the definition; its properties are the `Text.SplitJoin` and `Bootstrap.HeaderValueSplits` rows |
| Text.AsciiIsUtf8 | src/main/java/com/github/mercurievv/aws/lambda/nio/HttpClient.java:241 | for ASCII text, the US-ASCII encoding used for the preamble gives the same bytes as the UTF-8 encoding used for a string body |
| Text.AsciiBytes | src/main/java/com/github/mercurievv/aws/lambda/nio/HttpClient.java:240-241 | `getBytes(StandardCharsets.US_ASCII)` on ASCII text, the definition; its property is the `Text.AsciiIsUtf8` row |
| Text.Utf8Length | src/main/java/com/github/mercurievv/aws/lambda/nio/HttpClient.java:34-35 | the UTF-16 length of a text is at most its UTF-8 byte count; the two are equal exactly when the text is ASCII |
| Text.Utf8 | src/main/java/com/github/mercurievv/aws/lambda/nio/HttpClient.java:35 | `getBytes(StandardCharsets.UTF_8)`, the definition; its properties are the `Text.Utf8Length`, `Text.AsciiIsUtf8` and `Request.ContentLengthMatchesBody` rows |
| Text.Utf16Length | src/main/java/com/github/mercurievv/aws/lambda/nio/HttpClient.java:34 | `content.length()`, a count of UTF-16 units, the definition; its properties are the `Text.Utf8Length` and `Request.ContentLengthMatchesBody` rows |
| Headers.Added | src/main/java/com/github/mercurievv/aws/lambda/nio/HttpHeaders.java:12-19 | after `add`, the lower-cased name holds its old values followed by the new one; every other key is unchanged; the name joins the key order only on first use |
| Headers.AddedWellFormed | src/main/java/com/github/mercurievv/aws/lambda/nio/HttpHeaders.java:12-19 | `add` keeps the keys distinct, lower case, equal to the map's domain and never bound to an empty list |
| Headers.EmptyWellFormed | src/main/java/com/github/mercurievv/aws/lambda/nio/HttpHeaders.java:8-10 | a new multimap is well formed |
| Headers.GetIsCaseSensitive | src/main/java/com/github/mercurievv/aws/lambda/nio/HttpHeaders.java:12-28 | `get` does not lower-case its key: a value added under a mixed-case name is found under the lower-cased name and not under the name as given |
| Headers.ContentTypeExample | src/main/java/com/github/mercurievv/aws/lambda/nio/HttpHeaders.java:12-28 | "Content-Type" is stored and found as "content-type" and is not found as "Content-Type" |
| Headers.AddTwiceAccumulates | src/main/java/com/github/mercurievv/aws/lambda/nio/HttpHeaders.java:15-18 | two adds under names that differ only in case append both values, in call order, to one list |
| Headers.HttpHeaders.constructor | src/main/java/com/github/mercurievv/aws/lambda/nio/HttpHeaders.java:8-10 | a new `HttpHeaders` is empty and well formed |
| Headers.HttpHeaders.Add | src/main/java/com/github/mercurievv/aws/lambda/nio/HttpHeaders.java:12-20 | `add` updates the object to `Added` of its old value, keeps it well formed and returns the receiver |
| Headers.HttpHeaders.KeySet | src/main/java/com/github/mercurievv/aws/lambda/nio/HttpHeaders.java:22-24 | the key set holds exactly the stored names, all lower case |
| Headers.HttpHeaders.Get | src/main/java/com/github/mercurievv/aws/lambda/nio/HttpHeaders.java:26-28 | `get` returns the stored list exactly when the key is present, and that list is never empty |
| Request.GetPort | src/main/java/com/github/mercurievv/aws/lambda/nio/HttpClient.java:109-123 | an explicit port is returned as given; otherwise 80 for http and 443 for https; it fails exactly when there is no port and the scheme is neither |
| Request.AppendValueLines | src/main/java/com/github/mercurievv/aws/lambda/nio/HttpClient.java:133-135 | the inner loop appends exactly the lines of one name's values, in order |
| Request.FieldsMembers | src/main/java/com/github/mercurievv/aws/lambda/nio/HttpClient.java:132-136 | a (name, value) line appears in the preamble exactly when the value is stored under that name |
| Request.FieldsCount | src/main/java/com/github/mercurievv/aws/lambda/nio/HttpClient.java:132-136 | the number of header lines equals the number of stored values |
| Request.Preamble | src/main/java/com/github/mercurievv/aws/lambda/nio/HttpClient.java:129-139 | `getHeaderPartAsString` as a value, the definition; `Request.HttpRequest.HeaderPartAsString` is proved equal to it, and its properties are the `Request.FieldsMembers`, `Request.FieldsCount`, `Request.GetPreamble` and `Request.PostPreamble` rows |
| Request.AddedNewField | src/main/java/com/github/mercurievv/aws/lambda/nio/HttpClient.java:192 | adding a new name appends exactly one header line, after all the existing ones |
| Request.GetHeaders | src/main/java/com/github/mercurievv/aws/lambda/nio/HttpClient.java:81-91 | a GET sent through `request` carries exactly `host` and then `connection: close` |
| Request.GetPreamble | src/main/java/com/github/mercurievv/aws/lambda/nio/HttpClient.java:129-139 | the full preamble of such a GET, character for character |
| Request.PostHeaders | src/main/java/com/github/mercurievv/aws/lambda/nio/HttpClient.java:31-35 | a string request sent through `request` carries exactly `host`, `content-length` and `connection: close`, in that order |
| Request.PostPreamble | src/main/java/com/github/mercurievv/aws/lambda/nio/HttpClient.java:129-139 | the full preamble of such a POST, character for character |
| Request.EntityWriteCounts | src/main/java/com/github/mercurievv/aws/lambda/nio/HttpClient.java:40-45 | one `writeEntity` call advances the counter by as many bytes as the socket takes; it reports "more" exactly while bytes remain |
| Request.NoEntityFinishes | src/main/java/com/github/mercurievv/aws/lambda/nio/HttpClient.java:145-147 | a request without a body writes nothing and reports "finished" at once |
| Request.EntityWrite | src/main/java/com/github/mercurievv/aws/lambda/nio/HttpClient.java:40-45 | `writeEntity` as a value, the definition for a string body and, at lines 145-147, for a request without one; its properties are the `Request.EntityWriteCounts`, `Request.NoEntityFinishes` and `Request.HttpRequest.WriteEntity` rows |
| Request.HttpRequest.constructor | src/main/java/com/github/mercurievv/aws/lambda/nio/HttpClient.java:81-87 | a new request keeps its method and URI, has no body, and its only header is `host`, set from the URI's host |
| Request.HttpRequest.WithContent | src/main/java/com/github/mercurievv/aws/lambda/nio/HttpClient.java:31-37 | a string request's body is the text in UTF-8; `content-length` is the decimal of the text's UTF-16 length, added after `host` |
| Request.HttpRequest.Port | src/main/java/com/github/mercurievv/aws/lambda/nio/HttpClient.java:109-123 | the request's port is `getPort` of its URI: the explicit port, 80 or 443 |
| Request.HttpRequest.HeaderPartAsString | src/main/java/com/github/mercurievv/aws/lambda/nio/HttpClient.java:129-139 | the loops build exactly the preamble: the request line, one `name : value` line per stored value in key order, and a blank line |
| Request.HttpRequest.WriteEntity | src/main/java/com/github/mercurievv/aws/lambda/nio/HttpClient.java:40-45 | the write counter and the "more to write" answer are those of `EntityWrite` on the old counter |
| Request.NewRequestHeaders | src/main/java/com/github/mercurievv/aws/lambda/nio/HttpClient.java:81-87 | a new request's headers are the single key `host` holding the URI's host once |
| Request.ContentLengthMatchesBody | src/main/java/com/github/mercurievv/aws/lambda/nio/HttpClient.java:31-37 | the announced Content-Length is at most the number of body bytes sent, and equals it exactly when the text is ASCII |
| Connection.InitialInv | src/main/java/com/github/mercurievv/aws/lambda/nio/HttpClient.java:165-171 | a freshly registered connection satisfies the exchange invariant |
| Connection.Next | src/main/java/com/github/mercurievv/aws/lambda/nio/HttpClient.java:217-294 | one iteration of the inner loop for one key, the definition; its properties are the `Connection.NextInv`, `Connection.NextMonotone`, `Connection.WritePhase`, `Connection.ReadPhase`, `Connection.OnlyEmptyReadRemoves` and `Connection.ClosedIsInert` rows, and `Client.HttpClient.Dispatch` is proved against it |
| Connection.NextInv | src/main/java/com/github/mercurievv/aws/lambda/nio/HttpClient.java:217-294 | every step of the inner loop keeps the invariant. The invariant says: the interest matches the state; `read` is the total given to `onBody`; `onHeader` comes first; the wire is a prefix of the preamble followed by exactly the body bytes counted |
| Connection.RunInv | src/main/java/com/github/mercurievv/aws/lambda/nio/HttpClient.java:203-305 | any sequence of readiness events keeps the invariant |
| Connection.Run | src/main/java/com/github/mercurievv/aws/lambda/nio/HttpClient.java:203-305 | the events of one connection taken in order, the definition; its properties are the `Connection.RunInv`, `Connection.RunSnoc`, `Connection.ClosedStaysLive`, `Connection.GetReachesEntitySent` and `Connection.BodyDrains` rows, and `Client.HttpClient.WaitAll` is proved against it |
| Connection.RunSnoc | src/main/java/com/github/mercurievv/aws/lambda/nio/HttpClient.java:203-305 | running one more event is one more `Next` step from where the earlier events led |
| Connection.NextMonotone | src/main/java/com/github/mercurievv/aws/lambda/nio/HttpClient.java:150-156 | the state never moves backwards and advances at most one step per event |
| Connection.WritePhase | src/main/java/com/github/mercurievv/aws/lambda/nio/HttpClient.java:219-257 | connect moves to CONNECTED with interest WRITE; the first write sends the preamble once and moves to HEADER_SENT; `writeEntity` finishing moves to ENTITY_SENT with interest READ; a failed connect or write only closes the socket |
| Connection.ReadPhase | src/main/java/com/github/mercurievv/aws/lambda/nio/HttpClient.java:258-290 | a parsed header moves to HEADER_RECEIVED and calls `onHeader` then `onBody`; PARTIAL changes nothing; later reads go to `onBody` and add to `read`; a read of no bytes (`read <= 0`) closes and removes the channel |
| Connection.OnlyEmptyReadRemoves | src/main/java/com/github/mercurievv/aws/lambda/nio/HttpClient.java:264-267 | a channel leaves `channels` only through a read that returns no bytes (`read <= 0`) |
| Connection.ClosedIsInert | src/main/java/com/github/mercurievv/aws/lambda/nio/HttpClient.java:206-215 | no event changes a closed channel |
| Connection.ClosedStaysLive | src/main/java/com/github/mercurievv/aws/lambda/nio/HttpClient.java:228-234 | a channel closed by a failed connect or write stays in `channels` after any events, so `waitAll` cannot end |
| Connection.GetReachesEntitySent | src/main/java/com/github/mercurievv/aws/lambda/nio/HttpClient.java:239-249 | a GET reaches ENTITY_SENT, reading, after a connect and two writes, having put exactly the accepted prefix of its preamble on the wire |
| Connection.BodyDrains | src/main/java/com/github/mercurievv/aws/lambda/nio/HttpClient.java:40-45 | through enough partial writes of up to k bytes, the whole body goes out with no byte repeated or skipped, and the connection then waits for the response |
| Connection.FirstWrite | src/main/java/com/github/mercurievv/aws/lambda/nio/HttpClient.java:40-45 | one write of up to k bytes while the body goes out puts the next min(k, remaining) body bytes on the wire in order, and switches to reading exactly when none remain |
| Connection.ReadingIgnoresWrites | src/main/java/com/github/mercurievv/aws/lambda/nio/HttpClient.java:248 | once the key is interested only in reading, writable events change nothing |
| Client.HttpState.constructor | src/main/java/com/github/mercurievv/aws/lambda/nio/HttpClient.java:165-171 | a new state is NOT_CONNECTED, has read nothing, has a 1024-byte buffer and has made no handler calls |
| Client.Channel.constructor | src/main/java/com/github/mercurievv/aws/lambda/nio/HttpClient.java:194-199 | a new channel is open, registered for connect, with its state attached and nothing written |
| Client.HttpClient.constructor | src/main/java/com/github/mercurievv/aws/lambda/nio/HttpClient.java:180-183 | a new client has no channels |
| Client.HttpClient.Request | src/main/java/com/github/mercurievv/aws/lambda/nio/HttpClient.java:190-201 | `connection: close` is added to the request; without a valid port nothing is registered; otherwise exactly one fresh channel in its initial state joins `channels` |
| Client.HttpClient.CloseAfterResponse | src/main/java/com/github/mercurievv/aws/lambda/nio/HttpClient.java:192 | `connection: close` is added to the request's headers, and every registered channel keeps its invariant because their headers are other objects |
| Client.HttpClient.Register | src/main/java/com/github/mercurievv/aws/lambda/nio/HttpClient.java:194-200 | one fresh channel joins `channels`, in its initial state with a new `HttpState` holding the request and a 1024-byte buffer; the invariant holds for it and for every channel already there |
| Client.HttpClient.Open | src/main/java/com/github/mercurievv/aws/lambda/nio/HttpClient.java:194-199 | a new channel gets a fresh `HttpState` holding the request and a 1024-byte buffer, and starts in the initial connection state, which satisfies the invariant |
| Client.HttpClient.Get | src/main/java/com/github/mercurievv/aws/lambda/nio/HttpClient.java:185-188 | `get` registers a GET for the URI whose headers are `host` and `connection: close`, or nothing when the port is invalid |
| Client.HttpClient.Dispatch | src/main/java/com/github/mercurievv/aws/lambda/nio/HttpClient.java:214-294 | handling one selected key updates the channel and its `HttpState` exactly as `Connection.Next` does; a channel leaves `channels` only through that step, and a channel that leaves is closed |
| Client.HttpClient.OnConnectable | src/main/java/com/github/mercurievv/aws/lambda/nio/HttpClient.java:219-234 | the connectable branch: the channel and its state move exactly as `Connection.Next` says for a connect that succeeds or fails |
| Client.HttpClient.OnWritable | src/main/java/com/github/mercurievv/aws/lambda/nio/HttpClient.java:235-257 | the writable branch: the preamble is rendered by `getHeaderPartAsString` and sent in ASCII, or `writeEntity` runs; the result is exactly `Connection.Next` for that write |
| Client.HttpClient.OnReadable | src/main/java/com/github/mercurievv/aws/lambda/nio/HttpClient.java:258-294 | the readable branch: a read of no bytes (`read <= 0`) closes the socket and removes it from `channels`; otherwise the result is exactly `Connection.Next` for that read |
| Client.HttpClient.WaitAll | src/main/java/com/github/mercurievv/aws/lambda/nio/HttpClient.java:203-305 | the loop stops only when `channels` is empty or the events run out; channels only leave, and those that left are closed; every registered channel ends exactly where `Connection.Run` takes it from its starting state over the events selected for it, in selection order, so a channel never selected is unchanged |
| Client.HttpClient.Step | src/main/java/com/github/mercurievv/aws/lambda/nio/HttpClient.java:213-302 | a dispatch on a registered channel keeps the client's invariant; the channel moves by `Connection.Next`, every other channel is unchanged, channels only leave, and those that left are closed |
| Client.HttpClient.Move | src/main/java/com/github/mercurievv/aws/lambda/nio/HttpClient.java:214-294 | a dispatch moves its channel by `Connection.Next` and leaves every other channel's state as it was |
| Client.HttpClient.SelectAll | src/main/java/com/github/mercurievv/aws/lambda/nio/HttpClient.java:204-304 | the outer loop runs one batch per round while a channel is left, keeps the invariant, and extends each channel's run by exactly the events of the batches handled |
| Client.HttpClient.SelectBatch | src/main/java/com/github/mercurievv/aws/lambda/nio/HttpClient.java:211-302 | handling one batch of selected keys keeps the invariant and extends each channel's run by exactly that batch's events for it |
| Client.HttpClient.Advance | src/main/java/com/github/mercurievv/aws/lambda/nio/HttpClient.java:213-302 | the key of a registered channel adds exactly one event to that channel's run and none to any other's |
| Client.HttpClient.SkipKey | src/main/java/com/github/mercurievv/aws/lambda/nio/HttpClient.java:264-267 | the key of a channel already removed changes nothing, and the run over it is unchanged, because that channel is closed |
| Client.TracksSnoc | src/main/java/com/github/mercurievv/aws/lambda/nio/HttpClient.java:213-216 | one more selected key moves its own channel one `Connection.Next` step and no other channel |
| Client.EventsOfUnselected | src/main/java/com/github/mercurievv/aws/lambda/nio/HttpClient.java:210-215 | a channel with no selected key receives no event |
| MessageFormat.FormatPlain | src/main/java/com/ata/aws/lambda/LambdaBootstrap.java:57 | pattern text without quotes or opening braces is copied unchanged |
| MessageFormat.Format | src/main/java/com/ata/aws/lambda/LambdaBootstrap.java:57 | `MessageFormat.format` as the bootstrap calls it here and at lines 80, 90 and 107, the definition; its properties are the other `MessageFormat` rows and the URL and error-body rows of `Bootstrap` |
| MessageFormat.FormatArgument | src/main/java/com/ata/aws/lambda/LambdaBootstrap.java:57 | `{d}` becomes argument d, or stays as the text `{d}` when there is no such argument |
| MessageFormat.FormatSlot | src/main/java/com/ata/aws/lambda/LambdaBootstrap.java:80 | plain text followed by `{d}` becomes that text followed by argument d |
| MessageFormat.FormatQuotedChar | src/main/java/com/ata/aws/lambda/LambdaBootstrap.java:101-104 | a character between single quotes, such as `'{'`, stands for itself |
| MessageFormat.UnmatchedBraceFails | src/main/java/com/ata/aws/lambda/LambdaBootstrap.java:107 | an opening brace that is never closed makes the pattern invalid |
| Bootstrap.NextUrlFormat | src/main/java/com/ata/aws/lambda/LambdaBootstrap.java:20-21 | formatting the runtime template gives `http://<api>/2018-06-01/runtime/invocation/next` for every address |
| Bootstrap.ResponseUrlFormat | src/main/java/com/ata/aws/lambda/LambdaBootstrap.java:22 | formatting the invocation template gives `.../runtime/invocation/<id>/response` for every address and id |
| Bootstrap.InitErrorUrlFormat | src/main/java/com/ata/aws/lambda/LambdaBootstrap.java:23 | formatting the init-error template gives `.../runtime/init/error` |
| Bootstrap.ErrorUrlFormat | src/main/java/com/ata/aws/lambda/LambdaBootstrap.java:24 | formatting the error template gives `.../runtime/invocation/<id>/error` |
| Bootstrap.ErrorBodyFormat | src/main/java/com/ata/aws/lambda/LambdaBootstrap.java:101-108 | the quoted braces render as literal braces, so the error body is the JSON object with `errorMessage` then `errorType`, for every message and type |
| Bootstrap.ErrorBody | src/main/java/com/ata/aws/lambda/LambdaBootstrap.java:101-108 | the JSON error body that `postError` sends, the definition; `Bootstrap.ErrorBodyFormat` proves that formatting the template gives it |
| Bootstrap.HeaderValue | src/main/java/com/ata/aws/lambda/LambdaBootstrap.java:175-180 | a header value exists exactly when the header is present |
| Bootstrap.SingleHeaderValue | src/main/java/com/ata/aws/lambda/LambdaBootstrap.java:175-180 | a header with one value gives that value unchanged |
| Bootstrap.HeaderValueSplits | src/main/java/com/ata/aws/lambda/LambdaBootstrap.java:175-180 | when no value contains a comma, splitting the joined value on every comma while keeping empty pieces gives the values back |
| Bootstrap.HandlerPartsSplit | src/main/java/com/ata/aws/lambda/LambdaBootstrap.java:37 | `<class>::<method>` with colon-free parts splits into exactly the class and the method |
| Bootstrap.HandlerParts | src/main/java/com/ata/aws/lambda/LambdaBootstrap.java:37 | `handlerName.split("::")`, the definition; its properties are the `Bootstrap.HandlerPartsSplit` and `Bootstrap.HandlerWithoutSeparator` rows |
| Bootstrap.HandlerWithoutSeparator | src/main/java/com/ata/aws/lambda/LambdaBootstrap.java:37-41 | a handler string without `::` stays in one piece, so it has no method part |
| Bootstrap.HandlerResolves | src/main/java/com/ata/aws/lambda/LambdaBootstrap.java:37-46 | the split of the handler name, the class and method lookups and the null check, the definition; its properties are the `Bootstrap.PollsOnlyAfterResolving` and `Bootstrap.InitFailureReportsOnce` rows |
| Bootstrap.GetHandlerMethod | src/main/java/com/ata/aws/lambda/LambdaBootstrap.java:152-162 | it finds nothing exactly when no method has the name; otherwise it returns the first method with that name |
| Bootstrap.LoopShape | src/main/java/com/ata/aws/lambda/LambdaBootstrap.java:57-94 | the loop alternates: each iteration polls the next-invocation URL, then posts a response or an error for that iteration's request id |
| Bootstrap.PollsOnlyAfterResolving | src/main/java/com/ata/aws/lambda/LambdaBootstrap.java:35-60 | the runtime polls at all exactly when the handler resolves (and some iteration runs) |
| Bootstrap.InitFailureReportsOnce | src/main/java/com/ata/aws/lambda/LambdaBootstrap.java:49-54 | an unresolvable handler produces exactly one request, an `InitError` post to the init-error URL, and nothing else |
| Bootstrap.ErrorThenPoll | src/main/java/com/ata/aws/lambda/LambdaBootstrap.java:89-93 | a failed invocation posts `RuntimeError` to its error URL and the loop then polls again |
| Bootstrap.Run | src/main/java/com/ata/aws/lambda/LambdaBootstrap.java:26-99 | `main` makes exactly the requests of `BootTrace`: it resolves the handler, then runs the loop once per iteration |
| Bootstrap.BootTrace | src/main/java/com/ata/aws/lambda/LambdaBootstrap.java:26-99 | the sequence of requests `main` makes, the definition; `Bootstrap.Run` is proved to make exactly these requests, and its properties are the `Bootstrap.LoopShape`, `Bootstrap.PollsOnlyAfterResolving`, `Bootstrap.InitFailureReportsOnce` and `Bootstrap.ErrorThenPoll` rows |

## Left out

- Sockets, the selector and the byte buffers are replaced by abstract readiness events. An event records whether a connect or write threw, how many bytes the socket accepts and how many bytes a read returns. The receive buffer's contents, `flip` and overflow are not modelled.
- `HttpResponse.parse` is not part of this model. Each readable event carries the parser's answer (OK with the response and the count of leftover body bytes, or PARTIAL), and the handler receives body sizes rather than buffers.
- `Client.HttpClient.WaitAll`: `selector.select()` is replaced by a finite list of batches of selected keys. The model proves what holds when the loop stops, not that it stops, since with the real selector it need not (see `Connection.ClosedStaysLive`). A selector that throws only logs, so it is not modelled.
- `Client.HttpClient.WaitAll` skips a selected key whose channel is no longer in `channels`. In the source such a channel was closed when it was removed, and the selector does not report keys of closed channels.
- `Client.HttpClient.WaitAll`: handler callbacks are a recorded trace, so no callback registers a new channel during the loop. In the source, the bootstrap's own `onBody` calls `httpClient.post`, which would add a channel while `waitAll` runs. Channels only leave `channels` in this model because of this.
- The receive buffer is never cleared or compacted after `flip()`, so each read is stored from the buffer's position up to its limit. While waiting for the header the position is 0 after `flip()`, so each read overwrites the buffer from the start, and `HttpResponse.parse` only ever sees the bytes of the latest read, never the bytes accumulated so far. Each later read is also capped at the size of the previous one. A read returns 0 when the handler consumed the whole buffer (position equal to limit) or when no data has arrived, and such a read closes and removes the channel exactly as end of stream does. The model takes each read's parser answer and byte count as given and does not derive them from the buffer.
- `Connection.Next` assumes that `onBody` never moves the buffer's position. In the source, if `onBody` consumed c of the bytes it was given and the next read returns n, that read is stored from position c. `state.read` then grows by c + n, and `onBody` is handed the c consumed bytes a second time. The model adds n to `read` and records `OnBody(n)`, which is what the source does when c is 0.
- The `!key.isValid()` close after each key only closes a channel that is already closed, so it is not modelled.
- `ByteBufferHttpRequest` and the `post` method that `main` calls do not compile in the source, so they are not modelled. The POST shape is modelled through `StringHttpRequest` (`Request.HttpRequest.WithContent`).
- Logging, `printStackTrace`, `getEnv` and `HttpClient.close` are left out; the environment values are parameters of `Bootstrap.Run`. A missing (null) environment value is not modelled.
- Class loading and reflection (`initClasspath`, `getHandlerClass`, `invoke`) are left out. A map from loadable class names to their public method names stands in for them. The handler's own computation and its output are not modelled: each loop iteration is an abstract `Served` or `Threw` outcome carrying its request id.
- `Bootstrap.LoopShape`: the model reports once per turn, a single response or error under that turn's id. The callback as written (LambdaBootstrap.java lines 77-81, which do not compile) would invoke the handler and post once per `onBody` call. `waitAll` calls `onBody` once for the bytes after the header and again for every later read, so a body that arrives in several reads would be posted several times. When the header never parses or the peer closes first, nothing would be posted, and the loop would simply poll again. The model does not capture either case.
- `Bootstrap.Run`: the source's `while (true)` runs forever. The model runs it over a finite list of iterations.
- `postError` and `post` over `HttpURLConnection` are recorded as actions (URL, message, type) rather than performed. `Bootstrap.ErrorBodyFormat` gives the body such an action sends.
- `Bootstrap.ErrorThenPoll` assumes that posting never throws. In the source, when `conn.getOutputStream()` throws inside `setBody`, the `finally` block calls `close()` on a writer that is still null. The resulting `NullPointerException` is not an `IOException`, so `post` does not catch it. It is thrown from inside the `catch (Exception e)` block of `main`'s loop, so it ends the loop: a failed error report stops the runtime. The model does not capture this.
- `Text.Lower`: only ASCII letters are lower-cased. Locale-dependent and non-ASCII case mappings of `toLowerCase` are not modelled.
- `MessageFormat.Format`: format types and styles (`{0,number}`), argument numbers too large for an `int`, and non-string arguments are not modelled. Every brace group that is not `{digits}` is treated as an invalid pattern.
- `Request.HttpRequest.WriteEntity`: the `long` write counter is unbounded here, so overflow is not modelled.
- `setUri` and `setMethod` are not modelled. Neither is the `Logger` field of each request.
- `Client.HttpClient.Request` requires that the request is fresh (nothing written yet) and that its header object is not shared with a registered request. The source does not check this, but every caller in it satisfies it.
- `HttpHandler` and `Tmp.java` are not part of this model. Handler calls are recorded as a trace of `onHeader` and `onBody` calls.

Behaviour of the code worth noting:
- The preamble is written with a single `write` call, whatever part of it the socket accepts, and the state moves to HEADER_SENT at once. Bytes the socket did not take are never sent (`Connection.WritePhase`).
- A failed connect or write closes the socket but leaves it in `channels`. A closed channel is never selected again, so `waitAll` never returns (`Connection.ClosedStaysLive`). Only a read that returns no bytes removes a channel.
- `Content-Length` is `content.length()`, a count of UTF-16 units, while the body is sent in UTF-8. The two agree only for ASCII text (`Request.ContentLengthMatchesBody`).
- In `main`, `requestId` is never definitely assigned before use, so the source does not compile there. The model takes the request id from the iteration's outcome.
- An empty raw path gives the request line `GET  HTTP/1.0`, with two spaces. The model renders it as written.
- `getHeaderValue` throws on a missing header. `Bootstrap.HeaderValue` returns nothing in that case.
