# tmcp: a verified model of the protocol core

tmcp is a Rust library for the Model Context Protocol. This project models the parts of it that
carry state, order, or arithmetic, in Dafny, and proves what they promise for every input and
every run. `dafny verify dfyconfig.toml` checks all of it.

## What is modelled

**The codec.** `Codec` has the decoder and the encoder as methods over a byte buffer, with the
resume index, the search for the newline, the skipped empty lines, and the two bounds. The
reference decoder splits the whole stream at newlines. Every cutting of every stream gives the
frames of the reference decoder, until a chunk leaves an open line over 64 MiB. `CodecLaws`
says which streams survive every cutting, and that an encoder never kills the session of its peer.
A JSON printer (`Json`), the grammar of RFC 8259 (`JsonGrammar`), and a reader (`JsonReader`) that
is proved to accept exactly that grammar (`JsonLaws`), and the four message shapes (`Message`,
`Responses`), give the codec its text. So `Wire` speaks of real messages from end to end: requests,
notifications, and responses as the program builds them, also with metadata among the fields of a
result, and the lines of any other program, with any white space and any escapes.

**Requests in flight.** `InFlight` is the locked table with tokens shared by reference.
`ClientLoop` is the receive loop and its detached tasks as a transition system: each locked
section is one step, and the scheduler is free. `Dispatch` is the in-process client with its drop
guard and deadline. `Lifecycle` is connect, initialize, disconnect, and a peer that closes, with a
future that can be dropped at each await. Each of these has a machine over values, laws over all
runs, and a class whose methods take the steps of the machine in the heap.

**Params, limits, and notifications.** `Params` folds and splits `_meta`. `Payload` is the writer
that counts bytes. `CustomRequests` is the check of the sender, the routing and the check of the
receiver. `Notifications` has the eleven typed notifications of both sides and their envelope.

**Algorithms.** `WordWrap` is the greedy wrapper, `Digest` the canonical surface digest, `HashOrder` what the hash maps in a snapshot do to it,
`RefreshState` the three refresh flags, `DocComment` the doc-comment loop, and `ToolSignature` the
classifier of tool parameters with the collection of tools.

## What the code does that a reader may not expect

- A line over the maximum is a frame when it arrives with its newline in one read, and is fatal
  only while its newline is missing. The comment on the codec (`codec.rs:38-40`) says that an
  oversized frame is refused; the model follows the code (`CodecLaws.OverlongLineDependsOnCutting`).
- A message nested 128 levels deep or more is sent, and is a malformed line to the receiver. An
  error whose data is `null` arrives without data (`Message.ParseInvertsRender`).
- A result whose `_meta` is neither an object nor null becomes a response that the requester cannot
  read (`Responses.ResponseCarriesResult`).
- A server that reuses the identifier of a request in flight defeats the one order of cancellation
  and response that `context.rs:51-54` states (`ClientLoop.DuplicateIdBreaksOrder`). With fresh
  identifiers the order holds in every interleaving, and a request whose identifier is in flight is
  exactly one that can break it (`ClientLoop.FreshIdIsExactlyNeeded`).
- An `initialize` whose future is dropped inside the connection callback leaves the connection up
  and the flag clear, so that the next `initialize` runs the callback again on the same
  connection (`Lifecycle.DroppedCallbackStartsAgain`).
- `initialize` can succeed although the peer has closed while the callback ran
  (`Lifecycle.InitializeKeepsItsPromise`). A `disconnect` that is dropped while it waits leaves the
  context of a connection that is gone, until the next operation
  (`Lifecycle.DroppedDisconnectIsRepaired`).
- A connect or disconnect that is dropped while it waits for a message loop leaves that loop behind.
  The next connect does not wait for it, so two loops may run, and the old one may clear the transport
  of the new connection, against what `client.rs:608-610` says
  (`Lifecycle.DroppedStopLeavesLoop`, `Lifecycle.ThreeOperationsLeaveTwoLoops`).
- A call of another program whose identifier is `null` or a fraction, or whose progress token does not
  read, is taken for a notification and never answered (`Message.MethodObjectsAreClassified`,
  `Message.OddIdentifierIsNoRequest`).
- A progress notification that is not finite is refused by its receiver, and a total that is not
  finite is lost (`Notifications.ParseInvertsCreate`).
- Params that have a top-level `method` replace the tag of a typed request
  (`CustomRequests.TagIsMethod`). Metadata that is not valid, and a null progress token, are
  dropped on the way, so a receiver may accept what the sender's own limit refuses
  (`CustomRequests.ReceiverMeasuresNormal`).
- Two snapshots with the same hash maps can have different digests. `surface_digest` sorts the four
  lists, and not the hash maps of the server capabilities (`schema/capabilities.rs:136-160`), whose
  order differs from map to map. The digest of a snapshot is one exactly when each of these maps has
  one key at most; two experimental capabilities are enough to break it
  (`HashOrder.DigestIsStableExactly`, `HashOrder.TwoExperimentsAreUnstable`).
- Two different tools with one name make the digest depend on their order, whatever else the server
  advertises (`Digest.DuplicateNamesDependOnOrder`, `Digest.TwoDescriptionsDependOnOrder`).
- serde_json is built without its `float_roundtrip` feature, so a float may be read as a neighbour of
  the one that was written. What is proved of floats here is proved of their literals.
- A doc string with gaps inside keeps them, and loses them when the comment is read again
  (`DocComment.MultilineDocChanges`).
- The error for a method that is both a tool and a group is never reported: a tool must be async and a
  group must not, so one of those errors comes first (`ToolSignature.BothIsNeverReported`).
- A second `TaskMetadata` parameter is an ordinary parameter (`ToolSignature.SecondTaskIsAccepted`).

## Model

| member | source | states |
|---|---|---|
| Codec.JsonRpcCodec.Position | crates/tmcp/src/codec.rs:58 | The search finds the first newline of the buffer although it starts at the resume index, and looks at each byte up to there once |
| Codec.JsonRpcCodec.Decode | crates/tmcp/src/codec.rs:54-103 | One call yields what the reference step yields and leaves the same buffer; no newline lies before the resume index; bytes examined are bytes consumed plus the resume index after each return without error |
| Codec.JsonRpcCodec.Encode | crates/tmcp/src/codec.rs:109-126 | A message below the maximum is appended with one newline; any other is refused with its size and leaves the buffer as it was |
| Codec.FramedRead.Feed | crates/tmcp/src/codec.rs:50-104 | Feeding a chunk and draining takes the session where the reference session goes, and a live stream has looked at each received byte exactly once |
| Codec.DecodeOnceSplits | crates/tmcp/src/codec.rs:54-103 | One call takes lines off the front up to the first that is not empty, and keeps the open line |
| Codec.DrainSplits | crates/tmcp/src/codec.rs:54-103 | Draining yields the frames of every complete line and leaves exactly the open line; it fails exactly when that line is over the maximum |
| Codec.SplitsAppend | crates/tmcp/src/codec.rs:45-47 | More input first completes the open line: splitting in two parts is splitting the whole |
| Codec.RunSplits | crates/tmcp/src/codec.rs:54-103 | For every cutting of every stream the frames are those of the reference decoder, the buffer is the open line, and the session dies at the first chunk that leaves an open line over the maximum |
| CodecLaws.SurvivalIsLinesFit | crates/tmcp/src/codec.rs:59-66 | A stream survives every cutting if and only if each line, with the open one, is within the maximum |
| CodecLaws.EmptyLinesAreSkipped | crates/tmcp/src/codec.rs:76-79 | An empty line anywhere in a stream changes nothing, and any other line is one frame in its place |
| CodecLaws.OverlongLineDependsOnCutting | crates/tmcp/src/codec.rs:58-66 | An over-long line is a frame if its newline comes with it, and fatal if the newline comes later |
| CodecLaws.SendAll | crates/tmcp/src/codec.rs:109-126 | Encoding messages one after another appends the lines of those not refused, in order |
| CodecLaws.DeliveryIsInOrder | crates/tmcp/src/codec.rs:54-126 | Accepted messages come back in order at every moment of every delivery, the session never dies, and the buffer is the part of the next one |
| CodecLaws.EncoderBoundIsSafe | crates/tmcp/src/codec.rs:111-120 | One message survives every cutting exactly up to the maximum; the encoder refuses exactly from the maximum on |
| JsonLaws.ReadTextIsExact | crates/tmcp/src/codec.rs:84 | A line reads as a value if and only if it is, in the grammar of RFC 8259, a text of it with objects as maps, with any white space between the tokens and any spelling of its strings, nested less deeply than the limit |
| JsonLaws.SpacedTextIsRead | crates/tmcp/src/codec.rs:84 | Every text of a value, with any spaces, tabs, and line ends before and after each token, gives the value exactly when it is not too deep, and nothing otherwise |
| JsonLaws.FloatLiteralIsGrammar | crates/tmcp/src/codec.rs:84 | The numbers that the reader takes for floats are those of the grammar: a sign, an integer part, and a fraction, an exponent, or both |
| Bytes.Utf8Encodes | crates/tmcp/src/codec.rs:84 | The bytes that an escape becomes are the UTF-8 encoding of its code point: their number is told by the first, and they denote it |
| JsonLaws.ReadTextInvertsPrint | crates/tmcp/src/codec.rs:84 | Reading printed JSON gives the value back with objects as maps, exactly when it is nested less deeply than the limit |
| JsonLaws.ReadsValue | crates/tmcp/src/codec.rs:84 | Inside a longer text the reader takes exactly the value, with its fields in the order of the text, or fails exactly when it is too deep |
| JsonLaws.PrintedIsVisible | crates/tmcp/src/codec.rs:110-123 | A printed value is not empty and has no control character, so no newline |
| JsonLaws.PrintIsInjective | crates/tmcp/src/mcp_api.rs:59 | Two values with one encoding are one value, with fields in one order |
| Message.MessageReads | crates/tmcp/src/schema/jsonrpc.rs:179-186 | The untagged reader makes of each of the four message shapes what the program means by it: itself, with a `_meta` among the fields of a body as metadata and null error data as none, or nothing if the `_meta` does not read |
| Message.ParseInvertsRender | crates/tmcp/src/schema/jsonrpc.rs:179-186 | The text of a message is one line; it reads back as the message exactly when it is not too deep and plain, and is readable exactly when it is not too deep and its `_meta` is |
| Message.ParseIsExact | crates/tmcp/src/codec.rs:84 | A line of any other program is a message if and only if it is a text of a value that reads as the message and is not too deep |
| Message.ReadMessageIsExact | crates/tmcp/src/schema/jsonrpc.rs:179-186 | Any value is read as a message if and only if it is an object that has the fields of the message, and of no message of an earlier shape; optional fields may be missing or null, and other fields do not matter |
| Message.PlainIsReadAsItself | crates/tmcp/src/schema/jsonrpc.rs:342-370 | A message is read as itself exactly when the metadata of its body is in its place and its error data is not null |
| Message.BodiesAreOne | crates/tmcp-macros/src/schema_ext.rs:30-37 | A reader sees no difference between metadata written before the other fields, as params do, and after them, as results do |
| Message.MethodObjectsAreClassified | crates/tmcp/src/schema/jsonrpc.rs:179-186 | Of any object that names a method, the reader makes a request exactly when its identifier and request params read, and otherwise a notification exactly when its notification params read |
| Message.OddIdentifierIsNoRequest | crates/tmcp/src/schema/jsonrpc.rs:375-380 | A call whose identifier is null or a fraction is read as a notification |
| Responses.ResponseCarriesResult | crates/tmcp/src/jsonrpc.rs:165-193 | A response carries the identifier of its request and the value or the error of its handler; it is readable exactly when it is not too deep and the `_meta` of its result is an object, null, or absent |
| Responses.InsertRemoved | crates/tmcp/src/request_handler.rs:488-495 | Putting `_meta` back gives the result object that was split |
| Wire.JsonDelivery | crates/tmcp/src/codec.rs:54-126 | End to end: every sequence of messages that the program builds, whatever part has arrived in whatever chunks, is received in order, with a malformed frame exactly for each message that cannot be read |
| Wire.PeerLinesArrive | crates/tmcp/src/codec.rs:54-103 | Lines of any other program, spaced in any way and ended with or without a carriage return: in every cutting each is one frame in order, and is what its value reads as |
| Wire.ResponseArrives | crates/tmcp/src/jsonrpc.rs:165-193 | What arrives of a response in such a delivery is its identifier and its outcome, or a malformed frame exactly when it cannot be read |
| InFlight.Requests.Begin | crates/tmcp/src/context.rs:39-46 | The table maps the request to a fresh token, and the history grows by one step |
| InFlight.Requests.Finish | crates/tmcp/src/context.rs:55-61 | Removes the request and returns whether its token is cancelled, which is what the history says |
| InFlight.Requests.Cancel | crates/tmcp/src/context.rs:68-73 | Cancels only the token of the named request, and does nothing if it is not in flight |
| InFlight.TableIsHistory | crates/tmcp/src/context.rs:39-73 | For every run: the table holds exactly the requests begun and not finished, and a token is cancelled exactly when a cancellation came after its begin |
| InFlight.FinishTellsCancellation | crates/tmcp/src/context.rs:50-61 | For every run, finishing tells exactly whether a cancellation came since the request began |
| InFlight.RetiredTokenIsFrozen | crates/tmcp/src/context.rs:55-73 | A token that no tracked request has never changes again, even if its identifier comes back |
| InFlight.OtherTokensAreUntouched | crates/tmcp/src/context.rs:68-73 | A step about one request leaves every other tracked token as it is |
| ClientLoop.RunIsSound | crates/tmcp/src/client.rs:651-692 | Every interleaving with fresh identifiers keeps the invariant of table, tasks, and tokens |
| ClientLoop.CancellationHasOneOrder | crates/tmcp/src/client.rs:662-690 | A settled task suppressed its response exactly when a cancellation naming it was processed between its receipt and its finish; its token shows the same |
| ClientLoop.RequestsAreConserved | crates/tmcp/src/client.rs:669-690 | Requests received are responses tried, responses suppressed, and tasks that run; each response answers one task under its own identifier, with any identifiers |
| ClientLoop.TasksCanSettle | crates/tmcp/src/client.rs:680-690 | From every state the tasks alone can run to the end, also after the loop stopped |
| ClientLoop.SettledIsAnsweredOrCancelled | crates/tmcp/src/client.rs:680-690 | When all tasks are settled, a request has no response exactly when it was cancelled in time |
| ClientLoop.DuplicateIdBreaksOrder | crates/tmcp/src/context.rs:41-44 | Reusing an identifier in flight always allows a continuation that breaks the order |
| ClientLoop.FreshIdIsExactlyNeeded | crates/tmcp/src/context.rs:39-54 | After a run with fresh identifiers, a request keeps the one order in every continuation if and only if its identifier is not in flight |
| ClientLoop.Connection.ReceiveRequest | crates/tmcp/src/client.rs:669-680 | The loop tracks the request before its task runs: one Receive step of the machine |
| ClientLoop.Connection.ReceiveCancelled | crates/tmcp/src/client.rs:1144-1158 | A cancellation that names a request is one CancelNote step, and one that names none changes nothing |
| ClientLoop.Connection.FinishRequest | crates/tmcp/src/client.rs:680-685 | The finished task learns whether its response is suppressed: one FinishTask step |
| ClientLoop.Connection.SendResponse | crates/tmcp/src/client.rs:686-689 | The response carries the identifier of the task's own request |
| Dispatch.CallsAreSound | crates/tmcp/src/context.rs:255-288 | In every interleaving a handler's token is cancelled exactly when its caller left without the joined result, and a joined result is that of its own task |
| Dispatch.OutcomesAreHistory | crates/tmcp/src/context.rs:273-287 | In every run a call has timed out, was dropped, was joined, or has ended well or badly exactly when a step of the run about it says so |
| Dispatch.RequestIdsAreDistinct | crates/tmcp/src/context.rs:260-261 | The formatted request identifiers of all calls are pairwise distinct |
| Dispatch.FormatIsDecimal | crates/tmcp/src/context.rs:261 | An identifier is the prefix and the decimal digits that read as its number |
| Dispatch.FormatIsInjective | crates/tmcp/src/context.rs:261 | Different counter values give different identifier texts |
| Dispatch.LeavingIsFinal | crates/tmcp/src/context.rs:273-287 | After a caller left, nothing changes its outcome or its handler's token |
| Dispatch.DeadlinesAreAsked | crates/tmcp/src/request_handler.rs:48-56 | In every run the deadline of each call is the one that its caller asked for: whole milliseconds rounded down but at least one, capped at 64 bits, none for zero, and 30 seconds if nothing was asked |
| Dispatch.ZeroNeverExpires | crates/tmcp/src/context.rs:274-285 | A zero duration never times out, and any other can while its caller waits |
| Dispatch.InProcessClient.Begin | crates/tmcp/src/context.rs:260-274 | Takes the next number, and starts the handler with a fresh token that its context and the armed guard share: one Start step |
| Dispatch.InProcessClient.JoinTask | crates/tmcp/src/context.rs:275-287 | Returns the result of its task and disarms the guard, and no token changes: one Join step |
| Dispatch.InProcessClient.Leave | crates/tmcp/src/context.rs:277-284 | Leaving by deadline or drop lets the guard cancel the shared token, and no other: one Expire or Drop step |
| Lifecycle.LifecycleIsSound | crates/tmcp/src/client.rs:217-242 | Over every sequence of operations, dropped at any await or not, each handler that was started is owned, was waited for, or was left behind; the client owns one at most, and a connection that can be used owns it; the callback ends at most once for each successful connect, and starts once more for each drop inside it |
| Lifecycle.LoopsAreAccountedFor | crates/tmcp/src/client.rs:607-613 | In every run the loops that may run are the owned one and one for each stop that was dropped as it waited, so never two while no stop is dropped |
| Lifecycle.DroppedStopLeavesLoop | crates/tmcp/src/client.rs:235-242 | From every state that owns a handler, a dropped disconnect and a new connect leave one more loop that may run, and that can clear the new transport |
| Lifecycle.ThreeOperationsLeaveTwoLoops | crates/tmcp/src/client.rs:607-613 | Connect, a dropped disconnect, and connect leave two loops that may run |
| Lifecycle.CallbackStartsOnce | crates/tmcp/src/client.rs:593-604 | Without such a drop the callback starts at most once for each successful connect |
| Lifecycle.DroppedCallbackStartsAgain | crates/tmcp/src/client.rs:593-604 | From every connected state a drop inside the callback lets it start again on the same connection |
| Lifecycle.InitializeKeepsItsPromise | crates/tmcp/src/client.rs:771-801 | Over every run and every behaviour of the peer: initialize succeeds exactly when a supported version was selected, the announcement was sent, and the callback has run; it is abandoned exactly where its future is dropped; any other end is an error that leaves no context, no handler, and a clear flag; and which events each of these leaves |
| Lifecycle.ConnectAndDisconnectKeepTheirPromises | crates/tmcp/src/client.rs:217-242 | Over every run: a connect is done exactly when its events end with the connection and is then new; it fails exactly when the transport does, which leaves the handler and the transport; it is abandoned exactly at its drops. A disconnect leaves nothing unless it is dropped while it waits |
| Lifecycle.DroppedDisconnectIsRepaired | crates/tmcp/src/client.rs:235-242 | A disconnect that is dropped while it waits leaves the context and the flag; every next initialize fails, and every next operation clears them or connects anew |
| Lifecycle.Client.Connect | crates/tmcp/src/client.rs:217-228 | Keeps the promise of a connect: the outcome, the fields, and the events for each way that the transport and the caller behave |
| Lifecycle.Client.Disconnect | crates/tmcp/src/client.rs:235-242 | Keeps the promise of a disconnect: a new client and a stopped handler, or the context and the flag with a handler left behind |
| Lifecycle.Client.CallOnConnect | crates/tmcp/src/client.rs:593-604 | Runs the callback only with a context and a clear flag, and sets the flag only when it succeeds |
| Lifecycle.Client.Initialize | crates/tmcp/src/client.rs:771-801 | Keeps the promise of an initialize, as one Initialize step of the machine with a disconnect after any failure |
| Payload.WriteString | crates/tmcp/src/custom.rs:148-166 | The chunks of a string writer concatenate to the escaped string |
| Payload.WriteValue | crates/tmcp/src/custom.rs:148-166 | The chunks written for a value of any depth concatenate to its whole encoding |
| Payload.EncodedLen | crates/tmcp/src/custom.rs:148-166 | The counter ends at the length of the encoding that was never built |
| Payload.CheckPayload | crates/tmcp/src/custom.rs:135-145 | Refuses exactly the payloads whose encoding has more bytes than the limit, with the method, that number, and the limit |
| Params.SplitInvertsFold | crates/tmcp/src/jsonrpc.rs:27-51 | Splitting inverts folding for all params that are not empty |
| Params.FoldAfterSplit | crates/tmcp/src/jsonrpc.rs:27-51 | Folding a split keeps every other key, is idempotent, and changes nothing exactly when `_meta` is absent, or valid without a null progress token |
| Params.SplitIsTyped | crates/tmcp/src/jsonrpc.rs:39-51 | What a split yields is well-formed params |
| Params.ParamsObject | crates/tmcp/src/jsonrpc.rs:27-33 | Inserts the metadata under `_meta` over the other fields |
| Params.SplitParams | crates/tmcp/src/jsonrpc.rs:39-51 | Takes `_meta` out, drops it if it does not read, and gives nothing for nothing |
| CustomRequests.Prepare | crates/tmcp/src/custom.rs:106-115 | Sends the request exactly when it has no params or their encoding has no more bytes than its limit, with its method, timeout, and limit; otherwise the error has the method, that size, and the limit |
| CustomRequests.VendorRequestsAreCreated | crates/tmcp/src/custom.rs:47-77 | A custom request is made exactly for a method outside the schema and params that are an object or nothing, with the default limit and no timeout |
| CustomRequests.StandardIsTagged | crates/tmcp/src/custom.rs:120-132 | The table of methods that routes is the table of the tags of the schema |
| CustomRequests.HandleServerRequest | crates/tmcp/src/client.rs:1097-1138 | A method of the schema goes to its tagged form; any other is refused exactly when its params encode to more bytes than the limit of the handler, with that size, and is otherwise passed on with its params |
| CustomRequests.NormalShrinks | crates/tmcp/src/custom.rs:106-115 | The params that the receiver rebuilds encode to no more bytes than the sender measured, and to fewer exactly when something was dropped |
| CustomRequests.ChecksAgree | crates/tmcp/src/client.rs:1131-1137 | Params within the limit of the sender are sent, others are not; a receiver whose limit is not smaller passes on what was sent, with normalized params |
| CustomRequests.ReceiverMeasuresNormal | crates/tmcp/src/client.rs:1131-1134 | The receiver refuses exactly by the size of the normalized params, so it may accept what the sender's own limit refuses |
| CustomRequests.ParamsCrossTheWire | crates/tmcp/src/custom.rs:110-114 | The text of a request with the split params is read as the request, exactly when it is not too deep |
| CustomRequests.AcceptedRequestsArrive | crates/tmcp/src/client.rs:1131-1137 | From the size of the params through the text to the check of the receiver: a request within the limit is sent, is read as it was sent unless it is too deep, and a limit that is not smaller passes it on with its normalized params |
| CustomRequests.TagIsMethod | crates/tmcp/src/jsonrpc.rs:17-22 | The tag of a typed request is its method exactly when the params have no other `method` |
| Notifications.ParseInvertsCreate | crates/tmcp/src/jsonrpc.rs:57-118 | For every variant of both sides, parsing what was created gives the notification back exactly when its numbers are finite |
| Notifications.NotificationSurvivesWire | crates/tmcp/src/jsonrpc.rs:57-118 | The text of the created notification is read as it was created, and parses as the notification, exactly when it is not too deep |
| Notifications.RebuiltInvertsEnvelope | crates/tmcp/src/jsonrpc.rs:57-118 | Taking `method` and `_meta` out and putting them back gives the serialized object |
| Notifications.SerializedReads | crates/tmcp/src/jsonrpc.rs:95 | The serialized object answers every key with the slot of its variant |
| Notifications.UnknownVariant | crates/tmcp/src/jsonrpc.rs:57-76 | A notification of the other side is answered as an unknown method |
| Notifications.TagsDiffer | crates/tmcp/src/jsonrpc.rs:127-154 | No two variants share a method name |
| Notifications.CreateJsonrpcNotification | crates/tmcp/src/jsonrpc.rs:90-118 | The envelope has the method of the variant, its metadata in the place for it, every other value as a field, and no params when there is no value |
| Notifications.ParseTypedNotification | crates/tmcp/src/jsonrpc.rs:57-76 | For every notification of any peer: the result is a typed notification exactly when its side has the variant and the object has its fields, and an unknown method exactly when no variant of the side has the name |
| Notifications.ObjectIsExact | crates/tmcp/src/jsonrpc.rs:70-86 | The same of every object, whatever fields it has beside those of the variant, with optional fields missing or null |
| Notifications.RebuiltReads | crates/tmcp/src/jsonrpc.rs:57-69 | The object that the parse starts from answers a key with the params first, then the metadata, then the method |
| Notifications.WholeProgressReads | crates/tmcp/src/schema/requests.rs:434-443 | A progress and a total that are written as integers are read as floats that denote these integers |
| Notifications.OddProgressIsRefused | crates/tmcp/src/schema/requests.rs:434-443 | A progress that is no number, or a total that is neither a number nor null, is invalid params |
| WordWrap.WrapText | examples/ghusers.rs:36-58 | For an indent without a newline: cut at its newlines, the output is a breaking of the words into lines, every line of two or more words is within the width, and no other breaking has fewer lines |
| WordWrap.OutputIsFewest | examples/ghusers.rs:36-58 | The same of the text that the lines are joined to |
| WordWrap.GreedyBreaks | examples/ghusers.rs:41-50 | The greedy lines hold all words in order, and every line of two or more words is within the width with its indent |
| WordWrap.GreedyIsOptimal | examples/ghusers.rs:34-58 | No way to break the words into such lines has fewer lines |
| WordWrap.GreedyStaysAhead | examples/ghusers.rs:41-50 | Greedy breaks every suffix of the words into no more lines than any breaking of all of them |
| WordWrap.TakenIsMaximal | examples/ghusers.rs:44-49 | A line stops growing exactly when the next word would take it over the width |
| WordWrap.WrappingKeepsWords | examples/ghusers.rs:36-58 | The output reads back as the same words exactly when the indent is blank or there is one line at most, and then wrapping is idempotent |
| WordWrap.SizeCountsBytes | examples/ghusers.rs:44 | The size that the width limits is the number of UTF-8 bytes |
| Digest.SortByKey | crates/tmcp/src/mcp_api.rs:42-49 | The list is sorted by key, stably |
| Digest.SortIsStable | crates/tmcp/src/mcp_api.rs:42-49 | Sorting orders the keys and keeps the entries of each key in their old order |
| Digest.SortedIsUnique | crates/tmcp/src/mcp_api.rs:42-49 | Two ordered lists with the same group for every key are one list |
| Digest.SurfaceDigest | crates/tmcp/src/mcp_api.rs:41-61 | The digest is the hex form of the hash of the canonical surface |
| Digest.SurfaceBytesAreText | crates/tmcp/src/mcp_api.rs:51-59 | The bytes to hash, written out: an object of the five fields in camel case and in their order, with each list sorted |
| Digest.SurfaceBytesAreExact | crates/tmcp/src/mcp_api.rs:42-59 | For encoded surfaces whose entries have their sort key inside, the bytes to hash are equal exactly when they differ at most in the order of entries with different keys |
| Digest.PermutationKeepsDigest | crates/tmcp/src/mcp_api.rs:33-49 | With distinct sort keys and the same encoded initialize response, no permutation of the four lists changes the bytes to hash |
| Digest.DuplicateNamesDependOnOrder | crates/tmcp/src/mcp_api.rs:42-43 | Two different tools with one name give different bytes in the other order, whatever else is advertised |
| Digest.TwoDescriptionsDependOnOrder | crates/tmcp/src/mcp_api.rs:42-43 | Such a pair: two tools with the default input schema, one name, and different descriptions |
| Digest.DigestIsExact | crates/tmcp/src/mcp_api.rs:41-61 | While the hash does not collide on the two encodings, equal digests mean equal encoded surfaces, up to that order, and only they do |
| HashOrder.DigestIsStableExactly | crates/tmcp/src/mcp_api.rs:33-61 | The digest of one snapshot does not depend on how its hash maps are written if and only if every hash map in its initialize response has one key at most |
| HashOrder.OrderDecidesBytes | crates/tmcp/src/mcp_api.rs:51-59 | With equal lists, the bytes to hash are equal exactly when the initialize responses are written in one field order |
| HashOrder.SeveralKeysAreUnstable | crates/tmcp/src/schema/capabilities.rs:136-160 | A snapshot that has a hash map with two keys has two encodings that are one value to every reader and have different bytes to hash |
| HashOrder.TwoExperimentsAreUnstable | crates/tmcp/src/schema/capabilities.rs:137-139 | Two experimental capabilities are such a map, whatever else is advertised |
| HashOrder.WrittenIsOneValue | crates/tmcp/src/schema/capabilities.rs:136-160 | All the ways to write one value with hash maps read back as one value |
| Digest.HexEncode | crates/tmcp/src/mcp_api.rs:84-92 | The push loop gives the two digits of each byte in order, so twice the length |
| Digest.HexDenotesBytes | crates/tmcp/src/mcp_api.rs:84-92 | The digits are lower-case, and each two of them, the first before the second, are the byte in base 16 |
| Digest.HexIsInjective | crates/tmcp/src/mcp_api.rs:84-92 | Different bytes have different hex forms |
| RefreshState.DirtyMeansMarked | crates/tmcp/src/mcp_api.rs:112-152 | A flag is set exactly when its section was marked since its last swap |
| RefreshState.MarkIsReported | crates/tmcp/src/mcp_api.rs:112-152 | The next swap of its section reports a mark, and until then the flag is set |
| RefreshState.MarksAreConserved | crates/tmcp/src/mcp_api.rs:112-152 | Marks that find their flag clear are reported once each, or the flag is still set |
| RefreshState.TakeReportsPending | crates/tmcp/src/mcp_api.rs:146-152 | A take among other tasks reports each section marked before it, unless another task swapped that section meanwhile |
| RefreshState.QuietTakeClears | crates/tmcp/src/mcp_api.rs:137-152 | Alone, a take reports what a snapshot shows, and a second take nothing |
| RefreshState.McpApiRefreshState.SwapFlag | crates/tmcp/src/mcp_api.rs:146-152 | One swap reports exactly whether its section was marked since its last swap |
| RefreshState.McpApiRefreshState.Take | crates/tmcp/src/mcp_api.rs:146-152 | Three swaps with any steps of other tasks between them |
| RefreshState.McpApiRefreshState.ObserveServerNotification | crates/tmcp/src/mcp_api.rs:127-134 | A list-change notification marks its section, and any other marks nothing |
| RefreshState.ObservedByName | crates/tmcp/src/mcp_api.rs:127-134 | A section is marked exactly by the notification whose method says that its list changed |
| DocComment.ExtractDocComment | crates/tmcp-macros/src/parse.rs:21-45 | The push and pop loop joins, with newlines, lines in normal form that have the paragraphs of the trimmed doc strings |
| DocComment.ExtractedIsTheNormalForm | crates/tmcp-macros/src/parse.rs:17-45 | The lines are the one list without leading, trailing, or doubled empty lines that has the paragraphs of the input, and all its other lines in order |
| DocComment.ParagraphsOfLayout | crates/tmcp-macros/src/parse.rs:28-44 | Laying paragraphs out and reading them again gives them back |
| DocComment.FixedExactly | crates/tmcp-macros/src/parse.rs:21-45 | A text is its own comment exactly when it is empty, or its lines are trimmed and normal |
| DocComment.IdempotentExactly | crates/tmcp-macros/src/parse.rs:21-45 | Reading the comment again changes nothing exactly when every doc string is tidy inside |
| DocComment.SingleLinesAreIdempotent | crates/tmcp-macros/src/parse.rs:21-45 | Doc strings of one line each are such |
| DocComment.MultilineDocChanges | crates/tmcp-macros/src/parse.rs:28-38 | A doc string with two empty lines inside is not |
| ToolSignature.ParseToolTail | crates/tmcp-macros/src/parse.rs:598-693 | The method with its advancing index gives what the checks give in their order: the first error, or the parts |
| ToolSignature.TailIsClassified | crates/tmcp-macros/src/parse.rs:598-693 | A signature is accepted exactly when its three parts fit, every parameter is classified once and in order, and the error is that of the first check that fails |
| ToolSignature.ParseOrdinary | crates/tmcp-macros/src/parse.rs:628-689 | The cases of the remaining parameters and the loop over several give the function that OrdinaryIsClassified is about |
| ToolSignature.OrdinaryIsClassified | crates/tmcp-macros/src/parse.rs:628-689 | The rest of a signature is none, unit, one typed, or flat, exactly when it is fit, and otherwise gives the error of its first parameter that is refused |
| ToolSignature.PartsSplit | crates/tmcp-macros/src/parse.rs:603-628 | Context, task, and ordinary parameters concatenate to the whole list, with at most one of each of the first two |
| ToolSignature.PartsAreUnique | crates/tmcp-macros/src/parse.rs:603-628 | An accepted signature has no other such parts, and a context only in front |
| ToolSignature.SupportFollowsTask | crates/tmcp-macros/src/parse.rs:558-595 | The resulting support is the declared one, is required or optional exactly with such a task parameter, and each other combination is an error |
| ToolSignature.ParametersByType | crates/tmcp-macros/src/parse.rs:47-120 | A parameter is a context or a task parameter by the path that its type leads to behind any references, or by an option with such an argument |
| ToolSignature.TaskKindIsNamed | crates/tmcp-macros/src/parse.rs:612-628 | The task parameter of a signature is required exactly when its type leads to task metadata, and optional when it is an option of it |
| ToolSignature.LateTaskIsOrdinary | crates/tmcp-macros/src/parse.rs:612-628 | A task parameter is an ordinary one exactly when it is not at the place after the context |
| ToolSignature.SecondTaskIsAccepted | crates/tmcp-macros/src/parse.rs:612-628 | Two task parameters are accepted, and the second is the typed params |
| ToolSignature.MentionsIsOccurrence | crates/tmcp-macros/src/parse.rs:896-902 | A token stream mentions one of some identifiers exactly when one occurs in it at any depth |
| ToolSignature.CheckNames | crates/tmcp-macros/src/parse.rs:980-988 | Finds the first tool whose name an earlier one has, exactly when there is one |
| ToolSignature.CollectTools | crates/tmcp-macros/src/parse.rs:713-988 | The loop parses each method as a tool and as a group; it accepts exactly the blocks whose methods parse and have distinct names, keeps tools and groups in order, and gives the error of the first bad method or the first duplicate |
| ToolSignature.ToolsComeFromMethods | crates/tmcp-macros/src/parse.rs:713-755 | Every tool of an accepted block comes from one async method with a shared receiver, under its unprefixed name, with an accepted signature |
| ToolSignature.BothIsNeverReported | crates/tmcp-macros/src/parse.rs:965-972 | A method with both attributes is refused, and never with the error for having both |
| ToolSignature.ParseToolMethod | crates/tmcp-macros/src/parse.rs:713-755 | Checks the attributes, async, and the receiver in their order, and then the rest of the signature |
| ToolSignature.ToolIsClassified | crates/tmcp-macros/src/parse.rs:713-755 | A method is a tool exactly when it has the attribute, is async, has a shared receiver, and the rest is accepted, and its name is its identifier without a raw prefix; otherwise the error is that of the first check that fails |
| ToolSignature.GroupIsClassified | crates/tmcp-macros/src/parse.rs:820-880 | A method is a group exactly when its attribute has the name key alone and it is synchronous, takes a shared receiver only, and returns something; otherwise the error is that of the first check that fails |
| ToolSignature.GroupsComeFromMethods | crates/tmcp-macros/src/parse.rs:940-978 | The groups of an accepted block are those of its group methods, in order |
| ToolSignature.ReturnIsClassified | crates/tmcp-macros/src/parse.rs:495-556 | An output is accepted exactly as what it says: `Result` of one of three types, or `ToolResult` with its first type argument, at the end of any path |
| ToolSignature.EndsWithLeads | crates/tmcp-macros/src/parse.rs:92-105 | A type has a name exactly when it is a path to it behind any number of references |

## Left out

- `JsonLaws.ReadTextIsExact`: floats are their literals. The value of a literal, the shortest form that a float prints as, the neighbour that serde_json may read without `float_roundtrip`, and its refusal of a number over the largest float, are not modelled.
- `JsonLaws.SpacedTextIsRead`: the same holds of its floats, and of bytes that are not UTF-8.
- `JsonLaws.ReadTextInvertsPrint`: the same holds of its floats.
- `JsonLaws.ReadsValue`: the same holds of floats inside a longer text.
- `CustomRequests.AcceptedRequestsArrive`: the size that the receiver measures is that of the literals it was sent. A float that is read as a neighbour may print longer, and is not modelled.
- `CustomRequests.ChecksAgree`: the same holds of its sizes.
- `CustomRequests.HandleServerRequest`: the typed parse of a standard request, with its errors, is not modelled; the model gives the tagged object that the parse starts from.
- `Notifications.ParseTypedNotification`: the source tells an unknown method from invalid params by the text of the error (`jsonrpc.rs:78-86`). A notification that is invalid because of a string that holds the text of that error, such as a log level that is the method name, is an unknown method to the source, and has invalid params here.
- `Notifications.ObjectIsExact`: the same holds of the objects that it refuses.
- `Message.ParseIsExact`: an incoming object that repeats a key has its last value here, as a `Value` does; the derived readers refuse a repeated field of their own.
- `Wire.PeerLinesArrive`: the same holds of repeated keys in its lines, and of the floats and bytes named above.
- `Responses.ResponseCarriesResult`: starts from the error object. The table from errors to codes and messages is not modelled.
- Bytes are characters with codes below 256 where it matters. A line with bytes that are not UTF-8 is not refused here.
- The serde derives are modelled by hand, field by field, with the nesting limit of 128. Their error texts are not modelled.
- `Codec.FramedRead.Feed`: does not model the end of the input, where the library that drives the codec may yield a last frame.
- `Payload.EncodedLen`: does not model the wrap-around of the 64-bit counter, and the chunks of a number are one chunk.
- `Dispatch.CallsAreSound`: does not model a panic of the handler, other than as a task that failed.
- `ClientLoop.CancellationHasOneOrder`: does not model a handler that panics, which never finishes its request. Errors of the sink are a response that was tried.
- `Lifecycle.LifecycleIsSound`: a reply may come here even when no message loop is left to read it, so some runs of the model cannot happen.
- `Digest.SortByKey`: the sort of the standard library is an insertion sort here. Its stability and its order are what the digest rests on.
- `Digest.SurfaceBytesAreExact`: an entry is its sort key and its encoded value, and the initialize response is its encoded value of one time. The schema types that encode to them are not modelled, except for their hash maps in `HashOrder`.
- `ToolSignature.CollectTools`: the tool and group attributes of a method are given as parsed, or as an error. Their syntax, the spans, and the attributes of parameters are not modelled.
- SHA-256, clocks, and the scheduler are parameters.
- The rest of the request handler (pending responses, abandoned requests), the server loop, transports, HTTP, authorization, tool sets, and code generation are not part of this model.
- The `ServerCtx` side uses the same table in flight as `ClientCtx`; its own loop is not part of this model.
- Builders, the table of error codes, `Arguments`, and default trait methods are not part of this model.
- The progress counter: one atomic increment, as the request counter of `Dispatch` is.
- Stripping the attributes of flat parameters, and the check of flat parameters against the generics of the impl block. The identifier search that the check rests on is `ToolSignature.MentionsIsOccurrence`.
