# Verification of geario-http

A Dafny model of the stateful parts of the HTTP stack, and proofs about it. Sockets, time, services and the host are
inputs that may behave in any way. The theorems are over every input, every way of cutting a byte stream into pieces,
every schedule of calls, or every run of a state machine.

| part | files | central results |
|---|---|---|
| connection pool | `Pool`, `PoolProofs`, `PoolRuns`, `PoolProgress`, `PoolCustody`, `PoolObject` | per-key bound, exclusive connections, arrival order, what becomes of every connection and caller, no lost wakeup exactly with a limit, total limit and a turn for every key exactly with one key |
| HTTP/1 bodies | `Payload`, `Transfer`, `ChunkedGrammar`, `BodyCodec` | decoding is independent of cuts; chunked and sized bodies round-trip under any session; the chunked decoder accepts exactly its grammar and fails exactly when nothing can save the input |
| HTTP/1 heads | `Framing`, `FramingOrder`, `FramingValues`, `Response`, `ResponseLines`, `ResponseToClose`, `Head`, `HeadRuns`, `Requests`, `Decimal` | when framing depends on header order; when a response survives writer and reader; which lines a head has; pipelined requests arrive each with its body, however the bytes are cut; decimal printer |
| WebSocket | `Mask`, `WsFrame`, `Streaming`, `WsCodec`, `WsTransport`, `WsStream`, `WsVerdicts`, `WsShutdown`, `WsObjects` | the word-wise mask equals the byte-wise one; the verdict on every frame and sequence of frames; message sequences round-trip; what one transport writes comes out of the other, and pings are answered |
| dispatcher | `Dispatcher`, `DispatcherOrder`, `DispatcherReasons`, `DispatcherObject` | every request gets one response; where a response leads; every disconnect has its cause and every cause is reported; silence after the disconnect message; bounds on heads and disconnect messages, and exactly when they hold |
| FFI protocols | `Responder`, `ResponderNumbers`, `ResponderOrder`, `ResponderReplies`, `ResponderObject`, `ClientJob`, `Inflight` | ticket safety under all interleavings and exactly how long numbers last; the first answer is the reply; call order per ticket; callback and retry safety; in-flight ceiling |
| header map | `HeaderMap` | runs agree with a plain multimap; iteration; serialised values |

Each component is a set of functions on values with lemmas about whole runs. Where the code updates things in place
there is also a class or a method, proved to compute those functions. `Valid()` of the pool is the invariant of its
runs. The dispatcher and the ticket tables keep their history in ghost fields, and `Valid()` ties the object to it, so
the results about runs are contracts of their methods.

## What the proofs found

Where a promise fails, a lemma names the run or input, and a lemma says exactly when it holds. Two items at the end
are only differences between comments and code.

- The pool's limit is documented as the total number of simultaneous connections (client/cfg.rs:88-91). Dials are not
  counted by the check, so this holds for all runs exactly when at most one key is in use
  (`ConnectionPoolRuns.TotalLimitIffOneKey`). Per key it always holds.
- Without a limit a waiter that queued behind a dial is not woken by its end; with one, no wakeup is lost
  (`NoLostWakeupIffLimited`).
- `Upgrade: websocket` clears a `Content-Length` seen before it but not one seen after it, so the framing can depend on
  header order (`Response.OrderMatters`); `FramingOrder.OrderFreeIff` says for which heads.
- A sized response whose headers offer a websocket upgrade, or whose status is 100, 102 or 204, is written with a body
  that the reader does not read (`Response.UpgradeLosesBody`, `Response.ResponseRoundTrip`).
- A support turn that finds nothing in use need not get to every key that has a waiter: one queue can take every
  connection the limit allows. It does in all runs exactly when at most one key is in use
  (`ConnectionPoolProgress.TurnReachesAllIffOneKey`); what every turn does achieve is `SupportMakesProgress`.
- A response that is a stream is chunked by a flag of the message alone. It arrives if and only if it is chunked for an
  HTTP/1.1 client and not for an HTTP/1.0 client (`ResponseToClose.StreamSurvivesIff`): the HTTP/1.0 reader refuses the
  chunked head, and the HTTP/1.1 reader does not read on to the end of the connection.
- A control service that answers protocol errors with bodies that fail can be sent disconnect messages without end
  (`Dispatcher.StormHasNoBound`). A service keeps heads and disconnect messages bounded exactly if it never answers a
  protocol error with a body (`Dispatcher.BoundedIffBodiless`), as the default service does not.
- Ticket numbers repeat after 2^32 - 1 registrations on one worker, exactly then (`Responder.SameIdIff`). A body that
  is still open by then meets a new ticket with its number, and the ticket is both unanswered and streaming
  (`ResponderNumbers.WrapClashes`); runs with at most n registrations per worker are free of this exactly if
  n <= 2^32 - 1 (`ResponderNumbers.ClashFreeIffEnoughNumbers`).
- A request refused after it claimed its slot, and a job that is dropped, never give the slot back. After as many of
  them as there are slots the client refuses everything (`Inflight.LostForGood`); with one slot, one malformed request
  is enough (`Inflight.OneBadRequest`).
- A known close code given by its number, and an empty close description, do not arrive as they were sent; nothing else
  changes (`WsCodec.ArrivesChanged`).
- The comment in the client's `run_job` says that a request is retried only if it cannot have reached the server; the
  code also replays idempotent requests after a failed send. The model follows the code.
- `HeaderMap::insert` is documented to return a previous value and returns nothing.

## Reading the model

- HTTP/1 bytes are integers below 256, WebSocket bytes are 8-bit vectors. 64-bit sizes are naturals with the bound
  stated where it matters; `usize` is taken to be 64 bits wide.
- The chunk-size line parser of the HTTP library is not part of this model's source; its place is taken by a parser of
  the grammar in section 4.1 of RFC 7230 with at most 16 digits. The request-line and header-line parsers are any
  functions that more input does not make change their mind and that look at nothing behind the line they report.
- A head is a list of names and values. Names the code does not look at are numbered.
- Randomness (masks), buffer addresses, clocks and callbacks are parameters; what the network and services do is an
  event or an oracle function.
- The masking model is that of a little-endian machine.

## Model

| member | source | states |
|---|---|---|
| ConnectionPoolProofs.PopUsablePrefix | geario-http/src/client/pool.rs:267-317 | the connection taken from a deque is the most recently used usable one; everything behind it was unusable and is gone |
| ConnectionPoolProofs.AcquireForKeeps | geario-http/src/client/pool.rs:267-317 | acquiring keeps the counter, exclusiveness, one dial per key and the per-key bound, and leaves every waiter that had to wait waiting |
| ConnectionPoolProofs.ReturnKeeps | geario-http/src/client/pool.rs:515-561 | giving a connection back keeps them, so the counter does not underflow |
| ConnectionPoolProofs.CloseDialKeeps | geario-http/src/client/pool.rs:491-501 | a dial that ends without a connection keeps them |
| ConnectionPoolProofs.ConsumeKeeps | geario-http/src/client/pool.rs:475-490 | a dial that becomes a connection keeps them |
| ConnectionPoolProofs.CleanupKeeps | geario-http/src/client/pool.rs:239-265 | dropping cancelled waiters keeps the queues' order and loses no live waiter |
| ConnectionPoolProofs.SupportKeeps | geario-http/src/client/pool.rs:328-425 | a pass of the support loop leaves every key it parks on with a reason to wait |
| ConnectionPoolProofs.ConnectedKeeps | geario-http/src/client/pool.rs:427-473 | the end of a dial wakes the support loop if its waiters can go on |
| ConnectionPoolProofs.NewCallKeeps | geario-http/src/client/pool.rs:150-223 | a call that is served, dials or queues keeps all invariants |
| ConnectionPoolProofs.ExecKeeps | geario-http/src/client/pool.rs:106-561 | every state of every run satisfies all invariants |
| ConnectionPoolRuns.PerKeyBound | geario-http/src/client/pool.rs:267-317 | in every run, in use plus idle plus dialled stay within the limit for each key, one dial per key, and the counter is the number of guards |
| ConnectionPoolRuns.ConnectionsAreExclusive | geario-http/src/client/pool.rs:475-561 | in every run a connection has at most one holder or one place in one deque |
| ConnectionPoolRuns.ServedInOrder | geario-http/src/client/pool.rs:225-265 | in every run the waiters of a key are served in order of arrival and none is forgotten |
| ConnectionPoolRuns.SleepingRunEnds | geario-http/src/client/pool.rs:319-326 | the run without a limit that ends with a sleeping waiter |
| ConnectionPoolRuns.NoLostWakeupIffLimited | geario-http/src/client/pool.rs:319-425 | every run is free of lost wakeups if and only if a limit is set |
| ConnectionPoolProgress.SupportMakesProgress | geario-http/src/client/pool.rs:328-425 | in every run with a limit, after a turn of the support loop each live waiter is served, or its key is being dialled, or the limit is reached |
| ConnectionPoolProgress.CrowdedRunRests | geario-http/src/client/pool.rs:328-425 | the run over two keys after which nothing is in use and one queue holds as many waiters as the limit |
| ConnectionPoolProgress.TurnReachesAllIffOneKey | geario-http/src/client/pool.rs:328-425 | from states with nothing in use, a turn serves or dials for every key with a live waiter in all runs over a set of keys if and only if the set has at most one key |
| ConnectionPoolRuns.OneKeyBound | geario-http/src/client/pool.rs:267-317 | calls for one key keep to the limit in every run |
| ConnectionPoolRuns.OverrunEnds | geario-http/src/client/pool.rs:267-317 | the run over two keys that exceeds the limit |
| ConnectionPoolRuns.TotalLimitIffOneKey | geario-http/src/client/cfg.rs:88-91 | all runs over a set of keys keep to the total limit if and only if the set has at most one key |
| ConnectionPoolCustody.ClosedForGood | geario-http/src/client/pool.rs:515-561 | a connection released to be closed, or dropped, is in nobody's hand and in no deque in any later state of any run |
| ConnectionPoolCustody.KeptIsLast | geario-http/src/client/pool.rs:515-552 | a connection released to be kept leaves its holder and is the last of its key's deque; nothing else moves |
| ConnectionPoolCustody.ReleasedIsFound | geario-http/src/client/pool.rs:267-317 | it goes to the next caller of its key for whom there is room if and only if it is still usable, whatever happens to other keys in between |
| ConnectionPoolCustody.DialledLands | geario-http/src/client/pool.rs:427-473 | a dialled connection goes to its caller, to the deque if the caller left, and nowhere if the pool is stopped |
| ConnectionPoolCustody.CallerGets | geario-http/src/client/pool.rs:150-223 | exactly when a caller gets a connection (the last usable one), dials, or queues, in terms of room, deque and open dials |
| ConnectionPoolCustody.TurnHandsOut | geario-http/src/client/pool.rs:328-425 | in every run a support turn takes each deque from its end, puts all usable ones of that part in use, and serves as many waiters of the key as there are connections in use and dials more |
| ConnectionPoolCustody.LeftForGood | geario-http/src/client/pool.rs:343-352 | a caller that leaves before it is served is not served in any later state |
| ConnectionPoolCustody.FailedDialFreesKey | geario-http/src/client/pool.rs:491-501 | a failed dial lets the next caller of its key dial and touches no connection |
| ConnectionPoolCustody.StoppedForGood | geario-http/src/client/pool.rs:144-148 | after a shutdown or drop no dial brings a connection, in any later state |
| ConnectionPoolCustody.DroppedPoolEnds | geario-http/src/client/pool.rs:106-116 | dropping the pool empties the queues, and the next turn of the support loop is its last |
| ConnectionPoolObject.Pool.constructor | geario-http/src/client/pool.rs:69-104 | a new pool is the initial state |
| ConnectionPoolObject.Pool.Acquire | geario-http/src/client/pool.rs:267-317 | the loop over a deque gives the outcome and state of the specification |
| ConnectionPoolObject.Pool.CleanupWaiters | geario-http/src/client/pool.rs:239-265 | the loop over the queues removes the cancelled front of each |
| ConnectionPoolObject.Pool.CheckAvailibility | geario-http/src/client/pool.rs:319-326 | wakes the support loop exactly when there is room |
| ConnectionPoolObject.Pool.Call | geario-http/src/client/pool.rs:150-223 | has the effect of the call event and keeps the object valid |
| ConnectionPoolObject.Pool.Release | geario-http/src/client/pool.rs:515-552 | has the effect of the release event |
| ConnectionPoolObject.Pool.DropAcquired | geario-http/src/client/pool.rs:554-561 | has the effect of dropping a guard |
| ConnectionPoolObject.Pool.DropOpenGuard | geario-http/src/client/pool.rs:491-501 | has the effect of a dial that failed |
| ConnectionPoolObject.Pool.DialConnected | geario-http/src/client/pool.rs:427-473 | has the effect of a dial that succeeded |
| ConnectionPoolObject.Pool.ServeQueue | geario-http/src/client/pool.rs:343-409 | the loop over one queue serves waiters from its front until one must wait |
| ConnectionPoolObject.Pool.SupportTurn | geario-http/src/client/pool.rs:328-425 | has the effect of one pass of the support loop |
| ConnectionPoolObject.Pool.DialFinished | geario-http/src/client/pool.rs:439-470 | the end of a dial task has the effect of its event and keeps the object valid |
| ConnectionPoolObject.Pool.DropLast | geario-http/src/client/pool.rs:106-116 | dropping the last handle has the effect of its event |
| Payload.DecodeProgress | geario-http/src/h1/decoder.rs:662-730 | a chunk handed out is not empty and shortens the buffer, so draining ends |
| Payload.DecodeLater | geario-http/src/h1/decoder.rs:662-730 | what one call leaves behind, completed with later input, drains like the whole |
| Payload.DrainSplit | geario-http/src/h1/decoder.rs:662-821 | for every kind of body and every input, legal or not, cutting the input anywhere changes nothing |
| Payload.SessionIsDrain | geario-http/src/h1/decoder.rs:662-821 | in every session of arrivals and calls, bytes handed out and bytes to come are those of the whole input |
| Payload.EndStays | geario-http/src/h1/decoder.rs:662-730 | after the end every call says so and touches nothing |
| Transfer.SizeLineRoundTrip | geario-http/src/h1/encoder.rs:347-356 | the size line written is the size read, for every u64 |
| Transfer.ChunkedRoundTrip | geario-http/src/h1/encoder.rs:327-398 | any chunks, closed and followed by anything, decode to those before the first empty one, then the end, with the rest untouched |
| Transfer.LengthWrites | geario-http/src/h1/encoder.rs:327-377 | the sized encoder lets exactly the first n bytes through |
| Transfer.LengthRoundTrip | geario-http/src/h1/encoder.rs:359-398 | closing a body of n bytes succeeds if and only if n bytes were written, and then they are read back |
| Transfer.SessionClean | geario-http/src/h1/decoder.rs:662-821 | no call of any session over a complete input reports an error |
| Transfer.EndIsFinal | geario-http/src/h1/decoder.rs:662-821 | after an end in a session only ends follow |
| Transfer.PollingEnds | geario-http/src/h1/decoder.rs:662-821 | a bounded number of calls reaches the end once all input is there |
| Transfer.ChunkedSession | geario-http/src/h1/decoder.rs:687-821 | the chunked round trip for every cut of the input and every schedule of calls |
| Transfer.AnswersDone | geario-http/src/h1/encoder.rs:327-377 | the encoder says it is done exactly if the body is closed or an empty piece of an unbounded one was given, and writes nothing once closed |
| ChunkedGrammar.LegalIsAccepted | geario-http/src/h1/decoder.rs:687-821 | every body of the chunked grammar, with any digits and extensions and followed by anything, is read as its data |
| ChunkedGrammar.AcceptedIsLegal | geario-http/src/h1/decoder.rs:687-821 | whatever is read to its end is a body of that grammar with that data |
| ChunkedGrammar.ChunkedExact | geario-http/src/h1/decoder.rs:687-821 | on any input the decoder ends if and only if the input begins with a legal body, and reports an error if and only if no further bytes can make it begin with one |
| ChunkedGrammar.LengthExact | geario-http/src/h1/decoder.rs:662-686 | a sized body is its first n bytes, and ends if and only if they are all there |
| ChunkedGrammar.CloseExact | geario-http/src/h1/decoder.rs:662-730 | a body that runs to the end of the connection takes everything and never ends by itself |
| BodyCodec.PayloadDecoder.Decode | geario-http/src/h1/decoder.rs:662-730 | the decoding loop over the cell and the buffer computes the specification |
| BodyCodec.TransferEncoding.Encode | geario-http/src/h1/encoder.rs:327-377 | appends what the specification says and updates the kind |
| BodyCodec.TransferEncoding.Eof | geario-http/src/h1/encoder.rs:380-398 | closes the body, or reports that bytes are missing |
| Decimal.LutHolds | geario-http/src/h1/encoder.rs:401-405 | the table holds the two digits of every number below 100 |
| Decimal.DigitsRoundTrip | geario-http/src/h1/encoder.rs:488-543 | canonical digits: they read back as the number and have no leading zero |
| Decimal.DigitsFit | geario-http/src/h1/encoder.rs:488-543 | every u64 fits the 39 places of the buffer |
| Decimal.ConvertUsize | geario-http/src/h1/encoder.rs:488-543 | for every u64 the loop writes exactly the canonical digits within its 41-byte buffer |
| Decimal.WriteContentLength | geario-http/src/h1/encoder.rs:449-486 | all four size branches emit the same line |
| Framing.NeverBoth | geario-http/src/h1/decoder.rs:282-369 | over any headers, a length and chunked are never both recorded |
| Framing.FoldBySorts | geario-http/src/h1/decoder.rs:282-369 | the fold depends on eight sorts of headers only |
| Framing.FoldRecords | geario-http/src/h1/decoder.rs:282-369 | what an accepted list has recorded, in terms of its multiset |
| Framing.PlainVerdict | geario-http/src/h1/decoder.rs:282-369 | which multisets of headers are accepted when no length is cleared |
| FramingOrder.OrderFreeIff | geario-http/src/h1/decoder.rs:251-369 | verdict and framing are the same in every order if and only if the head is not sensitive; never sensitive without a websocket upgrade |
| FramingValues.LengthIff | geario-http/src/h1/decoder.rs:289-314 | a Content-Length is accepted as n if and only if it consists of digits for n below 2^64; no sign, no blanks |
| FramingValues.SaysIff | geario-http/src/h1/decoder.rs:316-357 | a value says a word if and only if it is that word in any case with only blanks around it |
| FramingValues.ExpectsIff | geario-http/src/h1/decoder.rs:358-363 | an accepted head expects an interim answer if and only if an Expect header begins with 100- |
| Response.OrderMatters | geario-http/src/h1/decoder.rs:348-357 | a length in front of a websocket upgrade is lost, behind it is kept |
| Response.EncodeUser | geario-http/src/h1/encoder.rs:118-144 | the loop over the user's headers writes those not skipped and notices a date |
| Response.EncodeHeaders | geario-http/src/h1/encoder.rs:58-155 | writes framing line, connection line, user lines and date as specified |
| Response.HeadIsFramed | geario-http/src/h1/encoder.rs:58-155 | for any user headers there is exactly one framing header, the first line, and none in a head that announces no body; the reader finds that framing unless an upgrade clears it |
| ResponseLines.HeadersArrive | geario-http/src/h1/encoder.rs:58-155 | for any user headers: all with names the encoder does not know are in the head, in order and with repetitions, own ones unless overridden and then the extra ones; a user's date replaces the generated one; framing lines are the encoder's alone, or the user's exactly when framing is left to the user |
| ResponseLines.ConnectionTold | geario-http/src/h1/encoder.rs:97-107 | whatever the user's headers, there is at most one connection header, and read with the version's default it tells the connection type |
| Response.ResponseRoundTrip | geario-http/src/h1/encoder.rs:243-273 | end of body succeeds iff enough bytes were written, and the reader chosen from the head takes exactly the body if and only if writer and reader agree by a condition on status and headers |
| Response.ReadsLike | geario-http/src/h1/decoder.rs:488-521 | which reader the head selects |
| Response.UpgradeLosesBody | geario-http/src/h1/decoder.rs:488-521 | a concrete response whose byte is written and not read |
| ResponseToClose.ClosingWrites | geario-http/src/h1/encoder.rs:327-398 | a body without a known length is written as it is |
| ResponseToClose.HeadHasNoBody | geario-http/src/h1/encoder.rs:243-262 | nothing is written as the body of an answer to HEAD |
| ResponseToClose.SwitchedIsHandedOver | geario-http/src/h1/decoder.rs:488-521 | after a switch of protocols the reader takes the whole connection unless the head announces a body |
| ResponseToClose.StreamSurvivesIff | geario-http/src/h1/encoder.rs:243-273 | head and body of a stream arrive if and only if it is chunked for HTTP/1.1 and not chunked for HTTP/1.0 |
| Head.CallLater | geario-http/src/h1/decoder.rs:147-198 | what one call says about the input as a whole, errors included |
| HeadRuns.ConnectionFollows | geario-http/src/h1/decoder.rs:87-198 | in every schedule of arrivals and calls of the head and body decoders on one buffer, what was given out and what is ahead are the messages of the whole input in one go |
| HeadRuns.EveryHeadAcceptedIffShort | geario-http/src/h1/decoder.rs:147-198 | for every message of a connection, pipelined or not, with the bodies its heads announce: messages come in order, a legal head that is there in full is accepted if and only if it is shorter than the limit, an error comes behind all that are, and bytes counted plus bytes buffered are those received behind the last message |
| HeadRuns.NothingHeldBack | geario-http/src/h1/decoder.rs:147-198 | when the call that is due gives nothing and no error, everything in the input has been given out |
| Requests.HeadFramed | geario-http/src/h1/decoder.rs:409-453 | the body of every accepted head follows from its start line and the framing of its headers |
| Requests.RequestRoundTrip | geario-http/src/h1/decoder.rs:409-453 | for any legal head and any way the body is handed over, the decoder it selects takes exactly the body that was written and leaves what follows; nothing without a body; everything if and only if the connection is handed over |
| Requests.PostNeedsLength | geario-http/src/h1/decoder.rs:414-419 | a POST of HTTP/1.0 without a length is refused |
| Requests.PipelineRoundTrip | geario-http/src/h1/codec.rs:134-157 | any requests written one after the other, for every cut and schedule: the server is given a beginning of them, each with exactly its body, no error before the last, and all once nothing more comes |
| HeadDecoder.MessageDecoder.constructor | geario-http/src/h1/decoder.rs:47-58 | a fresh decoder with its cell filled |
| HeadDecoder.MessageDecoder.DecodeLoop | geario-http/src/h1/decoder.rs:87-140 | the loop over header lines computes the specification |
| HeadDecoder.MessageDecoder.Decode | geario-http/src/h1/decoder.rs:147-198 | answer, cell (empty after most errors) and buffer are those of the specification |
| Mask.MaskedTwice | geario-http/src/ws/mask.rs:111-115 | masking is its own inverse |
| Mask.RotatedMask | geario-http/src/ws/mask.rs:29-38 | the mask rotated by n bytes is the one due behind n bytes |
| Mask.AlignBuf | geario-http/src/ws/mask.rs:81-104 | head, words and tail add up; head and tail are under 8 bytes; words are aligned |
| Mask.XorShort | geario-http/src/ws/mask.rs:52-63 | combines a short slice with the mask in place and nothing else |
| Mask.ApplyMask | geario-http/src/ws/mask.rs:21-46 | for every buffer, address and mask, the fast form in place equals byte-wise masking |
| WsFrame.BigEndianReads | geario-http/src/ws/frame.rs:43-60 | extended lengths read back |
| WsFrame.ParseStable | geario-http/src/ws/frame.rs:12-133 | more input changes no decision of the parser |
| WsFrame.FrameRoundTrip | geario-http/src/ws/frame.rs:152-184 | a written frame, masked or not and of any length form, is parsed back and what follows stays |
| WsVerdicts.FrameVerdict | geario-http/src/ws/frame.rs:12-133 | the verdict on every frame that can be laid out, legal or not and in either role: mask, code, size and control-frame rules in this order, with what is left in the buffer |
| WsVerdicts.PartWaits | geario-http/src/ws/frame.rs:88-103 | a frame that will be accepted is waited for until its last byte |
| WsVerdicts.WrittenIsShortest | geario-http/src/ws/frame.rs:152-184 | a written frame sets no reserved bit and has its length in the shortest form |
| WsVerdicts.ReaderAllowsLegal | geario-http/src/ws/codec.rs:235-311 | a reader takes a list of frames if and only if each may follow those before it: parts only inside a message, no new one inside another, closes are whole |
| WsVerdicts.WriterAllowsLegal | geario-http/src/ws/codec.rs:137-228 | a writer refuses a message if and only if it may not follow those it accepted |
| Streaming.SessionFollows | geario-http/src/ws/codec.rs:235-311 | for any steady decoder, every session stands between two frames of the stream |
| WsCodec.ArrivesChanged | geario-http/src/ws/proto.rs:136-177 | exactly which close messages do not arrive as sent |
| WsCodec.CloseReads | geario-http/src/ws/frame.rs:136-149 | a close payload reads back as its reason |
| WsCodec.MessageRoundTrip | geario-http/src/ws/codec.rs:137-311 | an accepted message decodes in the opposite role, and the continuation flags stay equal |
| WsCodec.RefusedLeaveNoTrace | geario-http/src/ws/codec.rs:137-228 | refused messages change neither wire nor flags |
| WsCodec.DecodeSteady | geario-http/src/ws/codec.rs:235-311 | waiting changes nothing and more input changes no other outcome |
| WsCodec.SequenceRoundTrip | geario-http/src/ws/codec.rs:137-311 | any messages, refused ones included, in any pieces and with calls at any time decode to the accepted ones in order, with equal flags at every boundary |
| WsTransport.ReadKeepsFlags | geario-http/src/ws/transport.rs:81-139 | whatever arrives, the loop keeps both continuation flags equal until a protocol error |
| WsTransport.TransportKeepsFlags | geario-http/src/ws/transport.rs:47-54 | in every run over a fresh codec the check for a started continuation does not fail before a protocol error |
| WsStream.RunSends | geario-http/src/ws/transport.rs:59-149 | in every run the wire is the encoding of what was sent: the pages, the answers to pings and at most one close, and only the pages carry data |
| WsStream.ReadFollows | geario-http/src/ws/transport.rs:81-139 | one call of the loop, on any frames: it hands up what the complete frames carry, answers each ping with its data, stops behind a close and refuses a text, whether or not the transport was shut down |
| WsStream.TransportIdentity | geario-http/src/ws/transport.rs:59-149 | what the owner of a running transport writes comes out of the peer as the same bytes, with pings answered in between and shutdowns on either side, for every cut and schedule; all of it once everything has arrived and is read |
| WsStream.PingsAnswered | geario-http/src/ws/transport.rs:81-139 | against any peer with a binary stream of fragments, pings and pongs: what comes out is what the first k messages carry and the pongs sent are exactly the answers to the pings among them; all once everything is read |
| WsShutdown.ErrorIffFailed | geario-http/src/ws/transport.rs:81-139 | in every run the transport knows of a protocol error if and only if a call of the read loop failed |
| WsShutdown.ClosedIffStopped | geario-http/src/ws/transport.rs:130-133 | in every run the connection is closed if and only if a call met a close frame |
| WsShutdown.CloseTells | geario-http/src/ws/transport.rs:59-79 | in every run the first shutdown sends one close, with code 1002 if and only if a read failed before and 1000 otherwise; later ones send nothing |
| WsObjects.ParseBuf | geario-http/src/ws/frame.rs:88-133 | parsing with in-place unmasking computes the specification |
| WsObjects.WriteFrame | geario-http/src/ws/frame.rs:152-184 | appends the frame piece by piece |
| WsObjects.Codec.constructor | geario-http/src/ws/codec.rs:73-96 | a codec with no flag but its role |
| WsObjects.Codec.Encodev | geario-http/src/ws/codec.rs:137-228 | flags, bytes and refusals are those of the specification |
| WsObjects.Codec.Decode | geario-http/src/ws/codec.rs:235-311 | outcome, flags and buffer are those of the specification |
| WsObjects.Transport.ProcessReadBuf | geario-http/src/ws/transport.rs:81-139 | the loop hands up bytes and sets flags as specified, and puts on the wire exactly the encoded answers to the pings it read |
| WsObjects.Transport.ProcessWriteBuf | geario-http/src/ws/transport.rs:142-149 | the loop writes every page as one frame |
| WsObjects.Transport.Shutdown | geario-http/src/ws/transport.rs:59-79 | one close frame, sent once, whose code tells of a protocol error |
| Dispatcher.RunKeeps | geario-http/src/h1/dispatcher.rs:125-231 | in every run a sent disconnect excludes serving, a broken decoder implies it, and publications do not exceed requests |
| Dispatcher.QuietAfterDisconnect | geario-http/src/h1/dispatcher.rs:129-319 | after the disconnect message no run decodes, calls the head decoder or publishes again, for any answers built from their messages |
| Dispatcher.DefaultIsBodiless | geario-http/src/h1/default.rs:24-30 | the default control service satisfies the condition of the bounds |
| Dispatcher.OwnIsOnly | geario-http/src/h1/dispatcher.rs:731-753 | a disconnect of the service's own is the only one, for any control service |
| Dispatcher.ConnectionIsBounded | geario-http/src/h1/dispatcher.rs:321-416 | with protocol errors answered without a body: at most one head more than requests and then an immediate stop, at most three disconnect messages, a service disconnect never after another |
| Dispatcher.StormHasNoBound | geario-http/src/h1/control.rs:490-509 | without bodiless answers, runs with any number of heads and disconnect messages and no request |
| Dispatcher.BoundedIffBodiless | geario-http/src/h1/control.rs:490-509 | all runs with a control service of a given policy keep the bounds if and only if the policy never answers a protocol error with a body |
| DispatcherOrder.EveryRequestAnswered | geario-http/src/h1/dispatcher.rs:321-416 | in every run, whenever the dispatcher reads or sends a body before a disconnect message, there is exactly one response head for every request decoded |
| DispatcherOrder.PayloadTracked | geario-http/src/h1/dispatcher.rs:456-558 | in every run a payload is open if and only if a request with one was decoded and no poll has found its end since |
| DispatcherOrder.AfterResponse | geario-http/src/h1/dispatcher.rs:351-361 | in every run, after a finished response that does not end the connection the next turn reads the payload if it is open and a request if not |
| DispatcherOrder.PayloadBeforeHead | geario-http/src/h1/dispatcher.rs:203-220 | so the head decoder is not called again before an open payload was read from |
| DispatcherOrder.BodyIsSent | geario-http/src/h1/dispatcher.rs:369-416 | in every run, behind a head with a body and every turn that waited comes another turn of that body |
| DispatcherOrder.NoMoreRequests | geario-http/src/h1/dispatcher.rs:731-753 | once there is a reason to disconnect no run calls the head decoder or decodes a request again |
| DispatcherReasons.ReasonsAreTrue | geario-http/src/h1/dispatcher.rs:698-753 | every disconnect message of every run has its cause: this turn shows it, or a turn up to this one gave the service's reason |
| DispatcherReasons.ReasonsAreReported | geario-http/src/h1/dispatcher.rs:241-319 | while there is no reason to disconnect, a lost peer, protocol error, failed service, timeout or shutdown that a turn meets is reported at once as that |
| DispatcherReasons.LastRequest | geario-http/src/h1/dispatcher.rs:168-188 | an upgrade that is taken over, and an upgrade or expectation that fails, are the last request of a run |
| DispatcherReasons.AnswersLead | geario-http/src/h1/dispatcher.rs:150-192 | in every run each answer of the control service leads to the service it names, and only answers that say so publish |
| DispatcherReasons.WaitsForPayload | geario-http/src/h1/dispatcher.rs:211-220 | while an answered request's payload has to be waited for, no run reads on |
| DispatcherObject.Dispatcher.constructor | geario-http/src/h1/dispatcher.rs:81-114 | the initial state |
| DispatcherObject.Dispatcher.CheckDisconnect | geario-http/src/h1/dispatcher.rs:742-753 | leaves exactly if a disconnect was sent or is due |
| DispatcherObject.Dispatcher.SendResponse | geario-http/src/h1/dispatcher.rs:321-367 | as specified |
| DispatcherObject.Dispatcher.PollPayload | geario-http/src/h1/dispatcher.rs:456-558 | effect of a payload poll on payload and reason |
| DispatcherObject.Dispatcher.PollReadRequest | geario-http/src/h1/dispatcher.rs:241-319 | as specified |
| DispatcherObject.Dispatcher.PollSendPayload | geario-http/src/h1/dispatcher.rs:369-416 | as specified; a payload error sets the flag and drops its message |
| DispatcherObject.Dispatcher.OnAnswer | geario-http/src/h1/dispatcher.rs:150-192 | each answer of the control service is carried out |
| DispatcherObject.Dispatcher.Turn | geario-http/src/h1/dispatcher.rs:129-231 | one turn of the loop has the effect of its event and the object stays where its history leads |
| DispatcherObject.Dispatcher.Poll | geario-http/src/h1/dispatcher.rs:125-231 | whatever the turns of the loop: nothing is decoded or published after the disconnect message, the bounds hold if no protocol error is answered with a body, and publications do not exceed requests |
| Responder.SameIdIff | geario-http-ffi/src/responder.rs:134-144 | two registrations of a worker get one number if and only if they are a multiple of 2^32 - 1 apart |
| Responder.IdNames | geario-http-ffi/src/responder.rs:134-144 | numbers are not zero and name their worker |
| Responder.LocalKeeps | geario-http-ffi/src/responder.rs:180-304 | every operation keeps tickets, bodies and answers consistent |
| Responder.RegisterKeeps | geario-http-ffi/src/responder.rs:134-144 | registering keeps them while numbers last |
| ResponderNumbers.NeverClashesIff | geario-http-ffi/src/responder.rs:134-144 | a run never has a ticket both unanswered and streaming if and only if no registration meets its number still streaming |
| ResponderNumbers.WrapClashes | geario-http-ffi/src/responder.rs:134-144 | the run that opens a body and goes on registering has such a ticket after its 2^32nd registration |
| ResponderNumbers.ClashFreeIffEnoughNumbers | geario-http-ffi/src/responder.rs:134-144 | all runs with at most n registrations per worker are free of such tickets if and only if n <= 2^32 - 1 |
| Responder.RunKeeps | geario-http-ffi/src/responder.rs:66-304 | all invariants in every interleaving of workers, hosts and mailboxes |
| Responder.TicketsAreSafe | geario-http-ffi/src/responder.rs:153-304 | never both unanswered and streaming, at most one reply, and the body is what was written between its begin and its first end |
| ResponderOrder.MailKept | geario-http-ffi/src/responder.rs:66-113 | in every run, what a worker carried out for other threads followed by what waits in its mailbox is what was posted |
| ResponderOrder.TicketOrder | geario-http-ffi/src/responder.rs:66-113 | the calls one thread makes for a ticket are carried out in the order they were made, whatever happens to other tickets |
| ResponderOrder.BodyInCallOrder | geario-http-ffi/src/responder.rs:222-304 | the body of such a ticket is its writes in call order, from the call that opened it to the first that ended it |
| ResponderOrder.ReachableIffInstalled | geario-http-ffi/src/responder.rs:66-73 | other threads can reach a worker if and only if its mailbox was installed |
| ResponderReplies.FirstAnswerIsTheReply | geario-http-ffi/src/responder.rs:180-255 | in every run, while numbers last: the replies of a ticket are exactly the one of the first answering call carried out after it was handed out and before it was given up, and none otherwise; it is unanswered if and only if neither has happened |
| ResponderReplies.SentIffFirst | geario-http-ffi/src/responder.rs:180-255 | an answering call is logged as sent if and only if it is that first one |
| ResponderObject.Tickets.constructor | geario-http-ffi/src/responder.rs:117-127 | empty tables, which are consistent |
| ResponderObject.Tickets.Register | geario-http-ffi/src/responder.rs:134-144 | hands out the next number, which no other ticket has while numbers last, and keeps the tables consistent with their history |
| ResponderObject.Tickets.DeliverLocal | geario-http-ffi/src/responder.rs:180-191 | answers a ticket once, if it is unanswered; the tables stay consistent with their history: one table per ticket, one reply, bodies as written |
| ResponderObject.Tickets.BeginStreamLocal | geario-http-ffi/src/responder.rs:240-255 | opens the body of an unanswered ticket; the tables stay consistent with their history: one table per ticket, one reply, bodies as written |
| ResponderObject.Tickets.WriteChunkLocal | geario-http-ffi/src/responder.rs:272-282 | adds to an open body; the tables stay consistent with their history: one table per ticket, one reply, bodies as written |
| ResponderObject.Tickets.FinishStreamLocal | geario-http-ffi/src/responder.rs:299-304 | closes an open body; the tables stay consistent with their history: one table per ticket, one reply, bodies as written |
| ResponderObject.Tickets.PhaseOf | geario-http-ffi/src/responder.rs:208-219 | tells exactly which table a ticket is in |
| ResponderObject.Tickets.Forget | geario-http-ffi/src/responder.rs:194-196 | drops an unanswered ticket and keeps the tables consistent |
| ResponderObject.Tickets.RunMailbox | geario-http-ffi/src/responder.rs:73-102 | the loop carries commands out first come, first served, and the history records them so |
| ClientJob.BodySeen | geario-http-ffi/src/client/mod.rs:606-651 | the host sees the chunks in order up to the first broken frame (reported as truncation) or the first chunk it cancels at (reported as that), whichever comes first; success is reported exactly if there is neither |
| ClientJob.JobIsSafe | geario-http-ffi/src/client/mod.rs:431-555 | for every job: at most one headers, then chunks, then exactly one report; one send, or max_retries + 1 if idempotent; all sends before the response |
| ClientJob.JobIsDecided | geario-http-ffi/src/client/mod.rs:431-555 | exactly what a job does: the first attempt that is not retried decides the report, or the last attempt's error if all are; one send for every failed send before and one more if the deciding attempt got that far |
| ClientJob.DeliverLoop | geario-http-ffi/src/client/mod.rs:571-652 | the loop calls the host back as specified |
| ClientJob.RunJob | geario-http-ffi/src/client/mod.rs:431-555 | the attempts loop computes the specification; there is always an error to report at its end |
| Inflight.CeilingHolds | geario-http-ffi/src/client/mod.rs:705-788 | in every interleaving jobs are bounded by the counter and the counter by the ceiling, no release goes below zero, and the counter is exact if and only if no slot was lost |
| Inflight.LetInIffRoom | geario-http-ffi/src/client/mod.rs:705-712 | in every interleaving a send is let in if and only if live sends, jobs and lost slots leave room below the ceiling |
| Inflight.LostForGood | geario-http-ffi/src/client/mod.rs:705-788 | once as many slots were lost as there are, every later claim of every continuation is refused |
| Inflight.OneBadRequest | geario-http-ffi/src/client/mod.rs:705-740 | a client with one slot is in that state after one malformed request |
| HeaderMap.AppendValue | geario-http/src/types/map.rs:51-65 | the values grow at the end and the form is canonical |
| HeaderMap.RunAgrees | geario-http/src/types/map.rs:309-343 | every run of insert, append and remove agrees with a map from names to lists, and lists have two values or more |
| HeaderMap.EqualityIsMultimapEquality | geario-http/src/types/map.rs:25-34 | structural equality is multimap equality |
| HeaderMap.SerialRoundTrip | geario-http/src/types/serde.rs:54-130 | a value comes back from either serialised form if and only if it is canonical |
| HeaderMap.IterationIsTheMap | geario-http/src/types/map.rs:520-546 | iteration gives every name all its values once and in order |
| HeaderMapObject.HeaderMap.Insert | geario-http/src/types/map.rs:309-311 | replaces the values of a name |
| HeaderMapObject.HeaderMap.Append | geario-http/src/types/map.rs:322-329 | adds a value behind those of a name |
| HeaderMapObject.HeaderMap.Remove | geario-http/src/types/map.rs:332-343 | removes a name |
| HeaderMapObject.HeaderMap.Get | geario-http/src/types/map.rs:209-211 | the first value of a name |
| HeaderMapObject.GetAll.Next | geario-http/src/types/map.rs:454-480 | takes one value off the front of what is to come |
| HeaderMapObject.Iter.Next | geario-http/src/types/map.rs:520-546 | takes one pair off the front of what is to come |
| HeaderMapObject.VisitSeq | geario-http/src/types/serde.rs:117-129 | the collecting loop computes the specification |
| HeaderMapObject.CollectPairs | geario-http/src/types/map.rs:520-546 | the iterator yields exactly the pairs of the table |
| HeaderMapObject.IteratePairs | geario-http/src/types/map.rs:277-279 | iterating over a header map gives every name all its values in order, and no other names |

## Left out

- Sockets, TLS, DNS, clocks and the channel library: events and parameters only.
- Keep-alive and connection-type negotiation, including the `ka` part of the header fold: no part in framing.
- `max_headers`: counts distinct names before each header, so its verdict depends on order.
- Status lines, request lines, URIs and cookies: framing does not depend on their text; a head is modelled as what framing looks at.
- Read-rate timers of the dispatcher: a timeout is an event that may come at any time.
- A failing head encoder in the dispatcher: the encoder of heads has no failing path.
- Disconnect messages that the dispatcher creates and drops without polling are not counted as delivered.
- WebSocket handshake, close frames over 125 bytes (their payload stays in the buffer) and lossy UTF-8 in descriptions.
- Client cancel of a request that is not paused, and the hyper connection pool of the FFI client.
- Worker numbers beyond 2^32 threads.
- Conversions of whole header maps from other collections.
- Sized responses to HTTP/1.0 clients, and streams whose framing headers the user writes: `Response.ResponseRoundTrip` is about HTTP/1.1 and `ResponseToClose.StreamSurvivesIff` about streams without such headers.
- MaskCopy: models in-place masking of a slice by masking a copy of it, because buffers are values here.
- ResponderObject.Tickets: one worker's tables; routing between workers is modelled on values in `Responder.Call`.
- Inflight: models the atomic counter steps on values; the memory orderings of the atomics are not modelled.
