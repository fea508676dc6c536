# OrientJS: a verified model

OrientJS is a driver for OrientDB. This project models the parts of it that compute: the resumable reader of
server replies and the connection that feeds it, 64-bit arithmetic on two 32-bit halves, the two document
formats, transactions, the legacy session pool, reference resolution and the compiler of WHERE clauses. It
verifies with `dafny verify dfyconfig.toml`.

## How it is built

| part | modules |
|---|---|
| reply reader: continuation `readOps` and context `stack` against a recursive parser | Bytes, Values, ReadMachine, Chunks, ReplyParser, Refinement, ErrorReplies, Replies, LostRecords, ReplyEncoding |
| operations and connection | Varint, WireFormat, Buffers, Operations, Protocol, Requests, Streams, LiveEvents, Pushes, PushEncoding, IdleConnections, Connections |
| `Long` | LongValue, LongArithmetic, LongShifts, LongDivision, LongText, LongParsing |
| binary documents of protocol 37 | Documents, DocumentRoundTrip, ServerValues, DocumentWriter, DocumentReader, Decimals |
| text documents of protocol 33 | CsvText, CsvRoundTrip, CsvCodec |
| transactions | TransactionRuns, FlushOverlaps, CreatedRecords, Transactions |
| references between records | References |
| legacy pool | PoolRuns, Pools |
| WHERE clauses | WhereClause, WhereExactly, WhereScan, WhereRows |
| shared by several | Options, Sequences, Entries |

What the source updates in place is a class or an array here (`Operation`, `Connection`, `DatabaseTx`, `Record`,
`Pool`, `Replacer`, `Thing`, `PendingLists`, the write buffer), its loops are loops, and each method is proved against a function
on values. The theorems about whole runs are about those functions.

Some choices a reader should know:

- Closures in `readOps` are data, and a reference to a nested object is a root and a path from it.
- Text keeps its UTF-8 bytes in the binary protocol. Doubles keep their eight bytes. In the text format numbers and
  dates stand as the text JavaScript prints them as.
- `Long.toNumber` is exact here. The floating-point quotient in `Long.div` is any integer of at least 1 whose product
  with the divisor is at most twice the remainder, and the logarithm any integer whose power of two is within a factor
  of four of that quotient; both allow far more than IEEE 754 does.
- `|` of disjoint bits is a sum, and shifts of 16-bit limbs are divisions and multiplications.
- The chunk that makes `handleSocketData` call itself without end is reported as `overflow`, so chunk independence needs
  no assumption about the stream. It happens when nobody waits and the bytes not used start no push or are the whole
  error of a live query, and only then.
- Sending a request, receiving data, a socket event, a flush, an answer, a timer are steps of a run; what the
  network, the clock and the server do is a parameter of the step.

## What the code does that one might not expect

Each of these has a lemma in the table below.

- Only a lone exception is reported faithfully: the first chained exception is read into the status object.
- A record whose class identifier is below -3 makes the operation forget its remaining reads, and the request completes
  without the fields it had still declared.
- A push in front of a waiting request makes the operation forget its reads; the next reply completes it unread. The
  error of a live query is reported to nobody; on an idle connection it is read again without end.
- The end of a socket that was announced leaves queued promises open.
- `Long.toString` writes unreadable chunks in radix 36.
- A negative decimal is flipped in the input buffer itself and reads differently the second time.
- A list of links with one to nothing behind another link is read as a list that cannot be written.
- Arrays in the text format lose a leading null; a date in an array becomes an empty map, an array in an array a map.
- Records added between a flush and its answer are never sent; deletes are sent again with every later message.
- Two flushes under way at once capture the same arrays: their records count as sent twice, those added between the
  two answers not at all, and before the first answer each flush begins the transaction again.
- A caller's own WHERE text with a bare OR, or a null condition, regroups the clause; a null condition in front can make
  it unreadable.
- Parameter names join a key and a number without anything between them: "a1" with number 0 and "a" with number 10
  are one parameter, and the later value replaces the earlier.

## Model

| member | source | states |
|---|---|---|
| ReadMachine.StepProgress | lib/client/network/protocol37/operation.js:485-571 | every turn of the read loop takes bytes or leaves strictly lighter work, so the loop ends however the reads rewrite the continuation |
| ReadMachine.Run | lib/client/network/protocol37/operation.js:485-578 | the loop never uses more bytes than it has |
| Values.PutThenGet | lib/client/network/protocol37/operation.js:485-578 | what is stored at a place of a result object is found there, and a second store replaces the first |
| Values.StoreBelow | lib/client/network/protocol37/operation.js:548-571 | storing into an object nested in another is storing the changed outer object |
| Chunks.StepIsLocal | lib/client/network/protocol37/operation.js:485-571 | a turn that was possible does the same when more bytes have arrived |
| Chunks.RunInTwo | lib/client/network/protocol37/operation.js:485-578 | stopping for want of bytes and going on with more is the same as having had them all |
| Chunks.ConsumeInTwo | lib/client/network/protocol37/operation.js:447-578 | `consume` on part of the bytes and then on the rest is `consume` on all of them, same state, outcome and offset |
| Refinement.RunRecord | lib/client/network/protocol37/operation.js:931-1006 | a record read rewrites the continuation, fills its own object at any depth, pops it and resumes the saved reads right behind the record |
| Refinement.RunRecords | lib/client/network/protocol37/operation.js:1148-1180 | the queued record reads of a collection append its records in order |
| Refinement.RunCollection | lib/client/network/protocol37/operation.js:1148-1180 | a collection consumes its count and exactly its records, then the saved reads run |
| Refinement.RunItems | lib/client/network/protocol37/operation.js:1189-1224 | the reads of every array element run between entering and leaving that element, in order |
| Refinement.RunArray | lib/client/network/protocol37/operation.js:1189-1224 | an array of nested declarations is what the recursive parser makes of it, and the reads set aside run afterwards with the stack at its old height |
| Refinement.RunFields | lib/client/network/protocol37/operation.js:485-578 | for every declaration, state and bytes the continuation machine and the recursive parser agree: the object, the offset just behind it, the reads behind it; or both wait; or both lose the rest |
| ErrorReplies.RunException | lib/client/network/protocol37/operation.js:1241-1286 | one exception of the chain is read into the object on top of the stack and decides how the chain goes on |
| ErrorReplies.RunChain | lib/client/network/protocol37/operation.js:1241-1286 | a chain of any length fills one object each, pops them all and joins the trace to the last |
| ErrorReplies.RunRefusal | lib/client/network/protocol37/operation.js:322-372 | whatever was queued, a refusal consumes exactly the error frame and ends with no reads and the stack as it was below the status object |
| Replies.RunStatus | lib/client/network/protocol37/operation.js:322-366 | the status is read into its own object; code 1 discards the declared reads for those of an error |
| Replies.ConsumeReply | lib/client/network/protocol37/operation.js:322-372 | for every declaration and all bytes that announce no push, `consume` delivers what the parser of whole replies says: result or refusal, bytes used, no reads left, only the root on the stack |
| Replies.RefusalIsFailure | lib/client/network/protocol37/operation.js:573-578 | a refusal keeps status code 1 and carries an error object whatever the frame writes into the status, so the outcome is ERROR |
| Replies.PreviousOf | lib/client/network/protocol37/operation.js:1241-1286 | where every exception of a refusal ends up: the first in the error, the second in the status object, the later ones each in its own element of `previous`, whose first element stays empty; the trace joins the last |
| Replies.ChainReportedIff | lib/client/network/protocol37/operation.js:1241-1286 | every chained exception is reported under its own type if and only if nothing is chained |
| LostRecords.RecordLostIff | lib/client/network/protocol37/operation.js:931-1006 | a record loses the rest of the reply if and only if its class identifier is below -3 |
| LostRecords.FieldsLostIff | lib/client/network/protocol37/operation.js:485-571 | declared fields of any nesting lose the rest if and only if one of the records the reader gets to has such an identifier |
| LostRecords.CutIff | lib/client/network/protocol37/operation.js:485-578 | so for whole replies, whose status must not be a refusal |
| LostRecords.CutAnswer | lib/client/network/protocol37/operation.js:931-1006 | a request that meets one in its first field completes two bytes later with the status and the identifier and nothing else |
| LostRecords.CountIsLost | lib/client/network/protocol37/operation.js:931-1006 | in the bytes of one reply: the declared count behind such a record is never read and the request completes without it |
| ReplyEncoding.ScalarRoundTrip | lib/client/network/protocol37/operation.js:686-925 | every scalar read inverts its encoding and stops right behind it |
| ReplyEncoding.RecordRoundTrip | lib/client/network/protocol37/operation.js:931-1006 | a record of each class identifier is read back from its encoding |
| ReplyEncoding.RowsRoundTrip | lib/client/network/protocol37/operation.js:1189-1224 | the elements of an array of nested declarations are read back from their encoding |
| ReplyEncoding.FieldsRoundTrip | lib/client/network/protocol37/operation.js:485-578 | declared fields of any nesting are read back from their encoding, whatever follows |
| ReplyEncoding.AnswerRoundTrip | lib/client/network/protocol37/operation.js:447-578 | running `consume` on the encoding of an answer plus any suffix completes with that answer at the offset just behind it |
| ReplyEncoding.ChainRoundTrip | lib/client/network/protocol37/operation.js:1241-1286 | an exception chain of any length is parsed back from its encoding |
| ReplyEncoding.RefusalRoundTrip | lib/client/network/protocol37/operation.js:1241-1286 | running `consume` on an encoded refusal of any chain plus any suffix fails with the object its status, head and chain make, just behind it |
| Operations.Operation.ParseArray | lib/client/network/protocol37/operation.js:1189-1224 | sets aside the queued reads and queues those of every element in front of them |
| Operations.Operation.ParseCollection | lib/client/network/protocol37/operation.js:1148-1180 | queues one record read for each record in front of the others |
| Operations.Operation.ShiftAndRun | lib/client/network/protocol37/operation.js:485-571 | shifts one read and runs it, or puts it back when its bytes are missing |
| Operations.Operation.Consume | lib/client/network/protocol37/operation.js:447-578 | the loop over `readOps` and `stack` computes the machine's outcome, state and offset from any start |
| Operations.Operation.Write | lib/client/network/protocol37/operation.js:122-305 | a write command appends exactly its encoding |
| Operations.Operation.Layout | lib/client/network/protocol37/operation.js:66-85 | each command gets the sum of the sizes before it as its offset |
| Operations.Operation.Buffer | lib/client/network/protocol37/operation.js:66-98 | the buffer is the concatenation of the encodings of the queued commands |
| Buffers.WriteAt | lib/client/network/protocol37/operation.js:66-305 | a command changes its own window of the buffer and nothing else |
| Buffers.WriteLong | lib/client/network/protocol37/operation.js:204-215 | a number goes out as the big-endian two's complement of its 64-bit value |
| WireFormat.LongRoundTrip | lib/client/network/protocol37/operation.js:204-215 | a long written and read back (lines 811-827) is the same number over the whole 64-bit range |
| WireFormat.SmallRoundTrips | lib/client/network/protocol37/operation.js:122-175 | integers, shorts and flags written and read back are the same; a byte or a character exactly when it fits one byte |
| WireFormat.BytesRoundTrip | lib/client/network/protocol37/operation.js:262-271 | bytes are found behind their length, whichever way the length is written |
| WireFormat.KnownBytes | lib/client/network/protocol37/operation.js:175-262 | most significant byte first, zigzag with the lowest seven bits first: integers, shorts, longs and varints as literal bytes |
| Varint.RoundTrip | lib/client/network/protocol37/operation.js:223-233 | a signed varint is read back from its encoding with any bytes behind it |
| Varint.PrefixFree | lib/client/network/protocol37/operation.js:223-233 | no varint is the beginning of another |
| Protocol.DriveInTwo | lib/client/network/conn.js:334-357 | processing part of the bytes, then the kept bytes with more, is processing all of them |
| Protocol.ChunkIndependence | lib/client/network/conn.js:334-357 | for all bytes, well formed or not, any way of cutting them into chunks gives the same queue, operation states, reports and kept bytes as one chunk |
| Requests.CancelSettlesAll | lib/client/network/conn.js:110-117 | cancelling settles every queued request once, in order |
| Requests.CancelRejects | lib/client/network/conn.js:110-117 | what cancelling reports is one rejection with the given reason for each queued identifier, in order, and nothing else |
| Requests.SocketEventReports | lib/client/network/conn.js:364-406 | a socket error, a close and an unannounced end reject each waiting request with ConnectionError 2, 3 and 1 and then emit their event; an announced end rejects nobody and emits what it was announced for |
| Requests.UnknownErrorRejectsAll | lib/client/network/conn.js:488-501 | a refusal that names no error rejects everybody who waits with UnknownError and emits an error |
| Requests.FirstOutcome | lib/client/network/conn.js:463-508 | an answer resolves the first request with its result, a refusal rejects it with the server's error, a push is reported as its own kind of event, anything else leaves it waiting |
| Requests.DriveKeepsRequests | lib/client/network/conn.js:427-510 | data settle requests from the front of the queue only, each once |
| Requests.RunKeepsRequests | lib/client/network/conn.js:78-117 | settled requests followed by queued ones grow by exactly the requests sent |
| Requests.RequestsSettleInOrder | lib/client/network/conn.js:78-117 | over every run of sends, data, errors, closes and ends the settled requests followed by the queue are the requests sent, in order, none twice |
| Requests.BrokenSocketSettlesAll | lib/client/network/conn.js:364-406 | after a socket error or close the queue is empty and every request sent was settled |
| Requests.EndSettlesAllIff | lib/client/network/conn.js:376-395 | the end of the socket settles everything if and only if nobody waits or the end was not announced |
| Streams.OneReply | lib/client/network/conn.js:427-510 | a whole reply settles the first request with what the parser makes of it and leaves the rest |
| Streams.RepliesInAnyChunks | lib/client/network/conn.js:334-357 | a stream of replies cut anywhere settles all queued requests in order with the parsed results and leaves an idle connection |
| Streams.MessagesInAnyChunks | lib/client/network/conn.js:334-357 | answers and refusals of any content, encoded one after the other and cut anywhere: each promise is told exactly what was sent to it, in order, and no byte is left |
| LiveEvents.RunEventData | lib/client/network/protocol37/operation.js:1082-1137 | the data of an event, projection or record: the decoded content lands in the event and the reads saved meanwhile are back |
| LiveEvents.RunEvent | lib/client/network/protocol37/operation.js:484-503 | an event of any type is read as the recursive parser says, an update with both its states |
| LiveEvents.RunEvents | lib/client/network/protocol37/operation.js:479-505 | any number of events fill the list in order |
| Pushes.AnyPush | lib/client/network/protocol37/operation.js:447-545 | a push of any kind, wherever it arrives: the operation waits for the whole frame and then has used exactly the frame; configurations and events are reported, the error of a live query ends the operation instead |
| IdleConnections.SilentIff | lib/client/network/protocol37/operation.js:470-477 | a push is reported to nobody if and only if it is the whole error of a live query, told from its bytes |
| IdleConnections.IdlePush | lib/client/network/conn.js:427-460 | on an idle connection a whole push is reported and dropped, an incomplete one stays whole in the kept bytes, the error of a live query is looked at for ever |
| IdleConnections.IdlePushEvent | lib/client/network/conn.js:439-460 | which of the events a whole push becomes, told from its kind byte, its status byte and its monitor number |
| PushEncoding.PushRoundTrip | lib/client/network/protocol37/operation.js:461-545 | a pushed configuration, live result or end of live query, encoded from its parts: the connection logs exactly what was encoded and goes on behind it |
| PushEncoding.EventsRoundTrip | lib/client/network/protocol37/operation.js:479-505 | encoded live events of every type, values or records, updates with both states, are read back in order |
| PushEncoding.LiveErrorRoundTrip | lib/client/network/protocol37/operation.js:470-477 | the encoded error of a live query, on an idle connection, is taken for the error it is: nothing is logged and the call never ends |
| IdleConnections.IdleOverflowIff | lib/client/network/conn.js:334-357 | on an idle connection the call never ends if and only if, behind the whole pushes that are reported, a byte starts no push or the error of a live query is whole |
| IdleConnections.OverflowIff | lib/client/network/conn.js:334-357 | what the call leaves when it never ends: nobody waits and the bytes not used start no push or are the whole error of a live query, and only then |
| IdleConnections.OverflowIffUnclaimed | lib/client/network/conn.js:334-357 | told before the call: it never ends if and only if the requests in the queue leave bytes to nobody and those are of that kind |
| IdleConnections.RepliesOverflowIff | lib/client/network/conn.js:334-357 | behind whole replies to everybody who waits, it never ends if and only if the bytes that follow are of that kind |
| IdleConnections.TwoOverflows | lib/client/network/conn.js:334-357 | one byte that starts no push, and one 19-byte error of a live query, each make the call never end |
| IdleConnections.PushForgetsReads | lib/client/network/protocol37/operation.js:461-545 | a push in front of a waiting request takes the request's reads with it: the next byte that announces no push completes the request with the object as it was before the push, unread; the error of a live query ends it at once |
| Connections.Connection.SendOp | lib/client/network/conn.js:78-103 | writes the operation's buffer and queues it, as the `Send` step says |
| Connections.Connection.SendCloseOp | lib/client/network/conn.js:93-96 | writes the close request without queueing it and announces the reconnect |
| Connections.Connection.Cancel | lib/client/network/conn.js:110-117 | empties the queue and rejects each request of the old queue, in order, with the error it is given |
| Connections.Connection.ProcessIdle | lib/client/network/conn.js:427-460 | looks for a push with a fresh operation; anything else leaves the offset alone |
| Connections.Connection.Answer | lib/client/network/conn.js:470-508 | settles the request or puts it back, as the outcome says; a refusal without error rejects everybody |
| Connections.Connection.ProcessFirst | lib/client/network/conn.js:463-508 | the first operation of the queue consumes what it can and the state machine agrees |
| Connections.Connection.Process | lib/client/network/conn.js:463-510 | runs the queue until an operation waits or the queue is empty |
| Connections.Connection.HandleSocketData | lib/client/network/conn.js:334-357 | the new state of the objects is that of the state machine's `Data` step |
| Connections.Connection.HandleSocketError | lib/client/network/conn.js:364-369 | is the `SocketError` step |
| Connections.Connection.HandleSocketEnd | lib/client/network/conn.js:376-395 | is the `SocketEnd` step |
| Connections.Connection.HandleSocketClose | lib/client/network/conn.js:402-406 | is the `SocketClose` step |
| LongArithmetic.Add | lib/long.js:346-372 | 16-bit limbs with carries add modulo 2^64 |
| LongArithmetic.Negate | lib/long.js:331-337 | negation modulo 2^64, MIN_VALUE included |
| LongArithmetic.Subtract | lib/long.js:381-383 | subtraction modulo 2^64 |
| LongArithmetic.Compare | lib/long.js:303-323 | the order of the 64-bit values |
| LongArithmetic.FromNumber | lib/long.js:702-719 | integers are kept, numbers outside the range are clamped to its ends |
| LongArithmetic.MultiplyLimbs | lib/long.js:413-456 | ten limb products with carries multiply modulo 2^64 |
| LongArithmetic.CarryProducts | lib/long.js:413-456 | the carries lose nothing: the limbs are those of the sum of the products modulo 2^64, and no number is shifted that does not fit 32 bits |
| LongArithmetic.Multiply | lib/long.js:392-456 | multiplication modulo 2^64 on every path: zero, MIN_VALUE, signs, small factors, limbs |
| LongShifts.ShiftLeftMultiplies | lib/long.js:604-620 | left shift multiplies by a power of two modulo 2^64 |
| LongShifts.ShiftRightDivides | lib/long.js:628-644 | right shift divides by a power of two and rounds down |
| LongShifts.ShiftRightUnsignedDivides | lib/long.js:654-673 | unsigned right shift divides the unsigned number |
| LongShifts.GetNumBitsAbs | lib/long.js:182-198 | the number of bits of the absolute value: 2^(n-1) <= |x| < 2^n for x not 0 |
| LongDivision.ProductOverflow | lib/long.js:511-526 | for an approximation within the error bound, the wrapped product looks too large exactly when the true one is |
| LongDivision.LowerApproximation | lib/long.js:506-526 | the correcting loop ends with a positive approximation whose true product fits the remainder |
| LongDivision.DivideLoop | lib/long.js:493-541 | approximating and correcting ends with the exact quotient of two positive numbers |
| LongDivision.DivMin | lib/long.js:470-484 | MIN_VALUE divided by anything, MIN / -1 = MIN included |
| LongDivision.Div | lib/long.js:465-541 | division truncates toward zero modulo 2^64; only 0 is refused |
| LongDivision.Modulo | lib/long.js:550-552 | the remainder has the sign of the dividend, for all divisors but 0 |
| LongDivision.DivisionIdentity | lib/long.js:550-552 | x = (x / y) * y + x % y in wrapped arithmetic |
| LongText.PositiveToString | lib/long.js:120-142 | six digits at a time, padded, from the lowest chunk up |
| LongText.ToString | lib/long.js:99-143 | refuses radices outside 2..36; otherwise the chunked text, MIN_VALUE split off by one digit |
| LongText.TextIsNumeralIff | lib/long.js:99-143 | the text is the number in the usual notation if and only if every six-digit chunk fits 31 bits, which holds below radix 36 |
| LongParsing.UnsignedFromString | lib/long.js:755-771 | eight digits at a time, modulo 2^64; each chunk as `parseInt` reads it, white space, sign and `0x` included |
| LongParsing.FromString | lib/long.js:738-771 | refuses empty text, bad radices and inner minus signs |
| LongParsing.NumeralReadsBack | lib/long.js:738-771 | the usual notation of every 64-bit number in every radix is read back |
| LongParsing.TextRoundTripIff | lib/long.js:99-143 | reading the written text (lines 738-771) gives the number back if and only if every chunk fits: always below radix 36, and for MIN_VALUE |
| LongParsing.WriteAndRead | lib/long.js:99-143 | the two methods one after the other give the Long back, exactly then |
| DocumentRoundTrip.ValueRoundTrip | lib/client/network/protocol37/deserializer-binary.js:101-164 | a value of any depth is read back from its encoding with any bytes behind it, using exactly its bytes |
| DocumentRoundTrip.FieldsRoundTrip | lib/client/network/protocol37/deserializer-binary.js:68-84 | the field loop stores every written field, in order, behind what the record holds |
| DocumentRoundTrip.ItemsRoundTrip | lib/client/network/protocol37/deserializer-binary.js:293-312 | the items of a list are read back |
| DocumentRoundTrip.LinksRoundTrip | lib/client/network/protocol37/deserializer-binary.js:193-224 | the links of a list are read back, links to nothing as null |
| DocumentRoundTrip.DocumentRoundTrip | lib/client/network/protocol37/deserializer-binary.js:52-84 | a document is read back in its normal form and `read` is the number of bytes written |
| DocumentRoundTrip.UnchangedIff | lib/client/network/protocol37/deserializer-binary.js:101-164 | the normal form is the value itself exactly for canonical values |
| DocumentRoundTrip.CanonicalRoundTripIff | lib/client/network/protocol37/serializer-binary.js:9-116 | writing and reading gives the same document if and only if it is canonical: class name first and not empty, no `@rid`, no link #-2:-1, at any depth |
| DocumentRoundTrip.LinksStayWritableIff | lib/client/network/protocol37/deserializer-binary.js:207-224 | what comes back for a list of links can be written again if and only if the list is empty, starts with a link to nothing, or has none |
| DocumentRoundTrip.NullLinkLeavesTheDomain | lib/client/network/protocol37/deserializer-binary.js:207-224 | one list of each kind: a link to nothing behind a link cannot be written again, in front it can |
| DocumentRoundTrip.KnownValues | lib/client/network/protocol37/serializer-binary.js:30-71 | one value of each kind as literal bytes, type byte included |
| DocumentRoundTrip.KnownClassDocument | lib/client/network/protocol37/serializer-binary.js:9-28 | a document with a class, and the same as an embedded object, as literal bytes |
| ServerValues.NumberRead | lib/client/network/protocol37/deserializer-binary.js:101-113 | shorts, integers and longs, types 1 to 3, are the varint that was encoded |
| ServerValues.DayRead | lib/client/network/protocol37/deserializer-binary.js:172-176 | a date of type 19 is its number of days times 86400000 milliseconds |
| ServerValues.ByteRead | lib/client/network/protocol37/deserializer-binary.js:182-185 | type 17 is a signed byte |
| ServerValues.FlagRead | lib/client/network/protocol37/deserializer-binary.js:177-181 | a flag is true for the byte 1 only |
| ServerValues.SingleRead | lib/client/network/protocol37/deserializer-binary.js:237-240 | a single-precision number is its four bytes |
| ServerValues.OtherTypesFail | lib/client/network/protocol37/deserializer-binary.js:101-164 | any other type byte is refused |
| ServerValues.SetRead | lib/client/network/protocol37/deserializer-binary.js:293-312 | a set of type 11 is read back as the list of its items |
| ServerValues.LinkSetRead | lib/client/network/protocol37/deserializer-binary.js:193-205 | a set of links, type 15, is read back, links to nothing as null |
| ServerValues.LinkMapRead | lib/client/network/protocol37/deserializer-binary.js:324-339 | a map of links, type 16: every key with its link, in order, the type byte of each key skipped, links to nothing as null |
| ServerValues.TreeBagRead | lib/client/network/protocol37/deserializer-binary.js:363-400 | of a bag kept as a tree the fourth number is its size, and all its bytes are used |
| ServerValues.BagRead | lib/client/network/protocol37/deserializer-binary.js:363-400 | an embedded bag of links is read back from its bytes, links to nothing as null |
| ServerValues.DecimalRead | lib/client/network/protocol37/deserializer-binary.js:269-285 | scale, count and bytes of a decimal give its number over ten to its scale |
| DocumentWriter.SerializeDocument | lib/client/network/protocol37/serializer-binary.js:9-16 | queues the encoding of a document, nested ones in the same operation, and lays everything out |
| DocumentWriter.WriteObject | lib/client/network/protocol37/serializer-binary.js:18-28 | counts and writes the fields that are not `@class` or `@rid` |
| DocumentWriter.WriteValue | lib/client/network/protocol37/serializer-binary.js:30-66 | the type byte and content of each kind of value |
| DocumentWriter.WriteLink | lib/client/network/protocol37/serializer-binary.js:68-71 | cluster and position as varints |
| DocumentWriter.HandleObject | lib/client/network/protocol37/serializer-binary.js:73-91 | embedded with a class, a map without |
| DocumentWriter.HandleEmbeddedCollection | lib/client/network/protocol37/serializer-binary.js:93-99 | the count and every item with its type |
| DocumentWriter.HandleLinkList | lib/client/network/protocol37/serializer-binary.js:101-107 | the count and every link without type |
| DocumentWriter.HandleArray | lib/client/network/protocol37/serializer-binary.js:108-116 | a list headed by a link is written as a list of links |
| DocumentReader.ReadDocument | lib/client/network/protocol37/deserializer-binary.js:52-66 | the loops compute the recursive parse of a document at any offset |
| DocumentReader.ReadFields | lib/client/network/protocol37/deserializer-binary.js:68-84 | the field loop computes the recursive parse |
| DocumentReader.ReadValue | lib/client/network/protocol37/deserializer-binary.js:101-164 | the dispatch over all types computes the recursive parse |
| DocumentReader.ReadLinkCollection | lib/client/network/protocol37/deserializer-binary.js:193-205 | the loop over links computes the recursive parse |
| DocumentReader.ReadEmbeddedCollection | lib/client/network/protocol37/deserializer-binary.js:293-312 | the loop over items computes the recursive parse; a length no array can have throws |
| DocumentReader.ReadLinkMap | lib/client/network/protocol37/deserializer-binary.js:324-339 | the loop over keys and links computes the recursive parse |
| DocumentReader.ReadRidBag | lib/client/network/protocol37/deserializer-binary.js:363-400 | embedded or a tree: the reader of bags computes the parse |
| DocumentReader.ReadEmbeddedMap | lib/client/network/protocol37/deserializer-binary.js:341-361 | a map is read like the fields of a document without class |
| DocumentReader.WriteThenRead | lib/client/network/protocol37/serializer-binary.js:9-16 | serializer and deserializer one after the other: the same document, every byte read, if and only if it is canonical |
| Decimals.DecimalRead | lib/client/network/protocol37/deserializer-binary.js:246-267 | the scaled number, and the buffer left with the bytes of a negative number flipped |
| Decimals.ReadExactlyIff | lib/client/network/protocol37/deserializer-binary.js:246-267 | the number is the two's complement value if and only if that lies between -2^63 - 1 and 2^63 - 1, in any number of bytes |
| Decimals.SecondReadSameIff | lib/client/network/protocol37/deserializer-binary.js:246-257 | since the flip is not undone, a second read gives the same number if and only if the number is not negative |
| Decimals.SecondReadIsComplement | lib/client/network/protocol37/deserializer-binary.js:246-257 | the second read of a negative number of 64 bits gives its complement, which is not negative |
| CsvRoundTrip.StringBack | lib/transport/binary/protocol33/deserializer-csv.js:201-224 | an escaped string is eaten to its closing quote and unescaped |
| CsvRoundTrip.NumberBack | lib/transport/binary/protocol33/deserializer-csv.js:233-259 | a number is eaten whole with its suffix, `t` making it a date |
| CsvRoundTrip.SuffixedNumberBack | lib/transport/binary/protocol33/deserializer-csv.js:233-259 | a number is eaten whole with any suffix the server writes, `a` and `t` making it a date |
| CsvRoundTrip.RidBack | lib/transport/binary/protocol33/deserializer-csv.js:267-287 | an identifier is eaten exactly |
| CsvRoundTrip.KeyBack | lib/transport/binary/protocol33/deserializer-csv.js:110-132 | a key, quoted or plain, is eaten with its colon |
| CsvRoundTrip.ValueBack | lib/transport/binary/protocol33/deserializer-csv.js:142-193 | a printed value of any depth in front of a delimiter is eaten exactly, as its normal form: a list loses a null in front |
| CsvRoundTrip.ItemBack | lib/transport/binary/protocol33/serializer-csv.js:100-115 | an item of a list comes back as its normal form, except that a date becomes an empty map and a list the map of its indices |
| CsvRoundTrip.ListBack | lib/transport/binary/protocol33/deserializer-csv.js:297-346 | a list of any printable items comes back as the list of its normal items |
| CsvRoundTrip.SetBack | lib/transport/binary/protocol33/deserializer-csv.js:142-193 | items between angle brackets are eaten as a list is |
| CsvRoundTrip.IndexedBack | lib/transport/binary/protocol33/serializer-csv.js:100-115 | a list printed as an object comes back as the map of its indices |
| CsvRoundTrip.UnchangedIff | lib/transport/binary/protocol33/serializer-csv.js:69-115 | the normal form is the value if and only if no list in it starts with null or holds a list or a date, at any depth |
| CsvRoundTrip.ValueBackIff | lib/transport/binary/protocol33/deserializer-csv.js:142-193 | so a printed value is eaten as itself exactly then |
| CsvRoundTrip.MoreItemsBack | lib/transport/binary/protocol33/deserializer-csv.js:297-317 | the items behind the first come back in order, nulls included |
| CsvRoundTrip.MapBack | lib/transport/binary/protocol33/deserializer-csv.js:355-389 | maps come back with their keys in order |
| CsvRoundTrip.RecordBack | lib/transport/binary/protocol33/deserializer-csv.js:398-486 | embedded records come back, empty ones and class names included |
| CsvRoundTrip.RecordRoundTripIff | lib/transport/binary/protocol33/deserializer-csv.js:14-68 | deserializing a serialized record gives it back if and only if it has a field and no list in it, at any depth, starts with null or holds a list or a date |
| CsvRoundTrip.ListBackIff | lib/transport/binary/protocol33/serializer-csv.js:100-115 | of lists whose items would each come back on their own, exactly those come back that do not start with null and hold no list and no date |
| CsvRoundTrip.NullHeadLost | lib/transport/binary/protocol33/deserializer-csv.js:297-317 | a list that starts with null comes back without it |
| CsvRoundTrip.ThreeWaysToChange | lib/transport/binary/protocol33/serializer-csv.js:100-115 | one list that loses its null and has its date and its list turned into maps |
| CsvCodec.SerializeDocument | lib/transport/binary/protocol33/serializer-csv.js:22-62 | the loop with its trailing comma cut off prints the fields with commas between them, the class name in front |
| CsvCodec.SerializeArray | lib/transport/binary/protocol33/serializer-csv.js:100-115 | the loop prints the items with commas between them |
| CsvCodec.ReadString | lib/transport/binary/protocol33/deserializer-csv.js:201-224 | the loop computes the recursive eater |
| CsvCodec.ReadKey | lib/transport/binary/protocol33/deserializer-csv.js:110-132 | the loop computes the recursive eater |
| CsvCodec.ReadFirstKey | lib/transport/binary/protocol33/deserializer-csv.js:76-101 | the loop computes the recursive eater and tells class names from keys |
| CsvCodec.ReadArray | lib/transport/binary/protocol33/deserializer-csv.js:297-346 | the loop computes the recursive eater; a turn that eats nothing would be repeated for ever |
| CsvCodec.ReadMap | lib/transport/binary/protocol33/deserializer-csv.js:355-389 | the loop computes the recursive eater |
| CsvCodec.ReadRecord | lib/transport/binary/protocol33/deserializer-csv.js:398-486 | the loops compute the recursive eater |
| CsvCodec.ReadDocument | lib/transport/binary/protocol33/deserializer-csv.js:14-68 | the loop computes `deserialize` |
| CsvCodec.PrintThenEat | lib/transport/binary/protocol33/serializer-csv.js:22-62 | printer and parser one after the other: the same record exactly under that condition |
| TransactionRuns.OneBegin | lib/client/database/database-tx.js:202-269 | over every run without overlapping flushes the wire holds one tx-begin, in front of everything else |
| TransactionRuns.BeginsAreEarly | lib/client/database/database-tx.js:202-269 | over every run, whatever overlaps, the wire holds one tx-begin for each flush and commit started before the first answer |
| TransactionRuns.CommitComesLast | lib/client/database/database-tx.js:149-269 | the wire of a whole transaction without overlapping flushes: one tx-begin, then only record-batches, then the tx-commit |
| TransactionRuns.FinalAndPending | lib/client/database/database-tx.js:149-265 | over every run in which no flush is started while another is under way, the final list and then the pending one hold every record added and every record a commit supplied, once and in order |
| FlushOverlaps.FinalHolds | lib/client/database/database-tx.js:216-265 | over every run, whatever overlaps: the final list holds, for each flush answered, the arrays it had captured, and what commits supplied; what was recorded is in the arrays that were replaced, or pending, or supplied |
| FlushOverlaps.KeptOnceIff | lib/client/database/database-tx.js:216-265 | so the final and pending lists hold every record as often as it was recorded if each array that was replaced with a record in it had been captured by exactly one of the flushes answered, and only then when records are recorded once each |
| FlushOverlaps.SentOnceIff | lib/client/database/database-tx.js:216-265 | over every run, whatever overlaps, whose flushes have been answered, what was sent and what is pending are the records added (once each), exactly once, if and only if every record in an array that was replaced went out with exactly one flush |
| FlushOverlaps.TakenTwice | lib/client/database/database-tx.js:216-265 | two flushes started behind one record move it twice, and a record added between their answers is in no list |
| TransactionRuns.RunAccount | lib/client/database/database-tx.js:202-265 | what was sent and what is unsent grows by the records added, less those that came while an answer was awaited |
| TransactionRuns.SentIff | lib/client/database/database-tx.js:216-265 | over every run without overlapping flushes, sent plus pending is everything added, once each and in order, if and only if nothing was added between a flush and its answer |
| TransactionRuns.LateRecordIsLost | lib/client/database/database-tx.js:241-265 | a record created while a flush is under way is never sent though the final list holds it |
| TransactionRuns.DeletesPileUp | lib/client/database/database-tx.js:216-265 | over every run, whatever overlaps, the deletes of a message continue those of the message before it, for no answer replaces them |
| TransactionRuns.DeletesSentOnceIff | lib/client/database/database-tx.js:216-265 | over every run the deletes of all messages together are those of one message if and only if at most one flush or commit was started after the first delete |
| TransactionRuns.DeleteSentTwice | lib/client/database/database-tx.js:216-265 | a delete, a flush and a commit send the delete twice |
| TransactionRuns.FinalDeletes | lib/client/database/database-tx.js:226-240 | over every run each answered flush puts all the deletes asked for so far into the final list, those it put there before once more |
| Transactions.DatabaseTx.Create | lib/db/transaction.js:121-131 | the next temporary identifier, different from all given before and below position -1 |
| Transactions.DatabaseTx.Update | lib/db/transaction.js:140-154 | queues a record that has an identifier, refuses any other |
| Transactions.DatabaseTx.Delete | lib/db/transaction.js:163-177 | queues a record that has an identifier, refuses any other |
| Transactions.DatabaseTx.StartFlush | lib/client/database/database-tx.js:202-240 | sends a begin, a batch or nothing |
| Transactions.DatabaseTx.Flush | lib/client/database/database-tx.js:202-212 | is the `Flush` step, also while other answers are awaited; it captures the arrays themselves |
| Transactions.DatabaseTx.FlushAnswered | lib/client/database/database-tx.js:226-240 | moves what the arrays captured by the flush hold by now to the final lists and puts new arrays in place, keeps the deletes |
| Transactions.DatabaseTx.Commit | lib/client/database/database-tx.js:149-173 | flushes first, then adds the supplied changes and sends the commit |
| Transactions.DatabaseTx.Answered | lib/client/database/database-tx.js:149-265 | is the `Answer` step, whatever was awaited |
| Transactions.DatabaseTx.CommitAnswered | lib/client/database/database-tx.js:174-180 | applies the answer to all records created |
| Transactions.ApplyCreated | lib/client/database/database-tx.js:8-42 | the nested loops, renaming records during the search, compute the fold over the lines of the answer on any aliasing |
| CreatedRecords.EachItsOwn | lib/client/database/database-tx.js:8-42 | with distinct identifiers and a fresh mapping each line goes to exactly the record that had its temporary identifier, and no other record changes |
| CreatedRecords.ApplyAgain | lib/client/database/database-tx.js:180-196 | applying the answer once more, to the same or a longer list, returns the same records and changes nothing |
| Transactions.CreatedRecordsGetTheirRids | lib/client/database/database-tx.js:8-42 | temporary identifiers below -1 and distinct permanent ones suffice for both |
| References.OnlyUnlistedLeft | lib/db/record.js:171-227 | identifiers of listed records are gone from a resolved value, all others are still there |
| References.CollateHolds | lib/db/record.js:124-151 | an identifier is collated if and only if it was before or a listed record has it |
| References.FirstNamed | lib/db/record.js:124-151 | the record that stands for an identifier is the first listed one that has it, unless one stood for it before |
| References.CollatedStand | lib/db/record.js:124-151 | so collating makes each identifier stand for the first record listed with it |
| References.CollateRecords | lib/db/record.js:124-151 | the first record with an identifier stands for it, and only listed records do |
| References.ResolvedReplaces | lib/db/record.js:180-227 | at every place of a value, in arrays of any depth, an identifier of a listed record has become the first such record, anything else is what it was, arrays keep their lengths |
| References.Replacer.ReplaceRecordIds | lib/db/record.js:180-227 | the walk ends; it puts the first listed record in place of each identifier in every object of a tree, and nothing else changes, or returns the record met before under the same identifier |
| References.Replacer.ReplaceFields | lib/db/record.js:202-226 | every field but those starting with `@` is resolved in place |
| References.ResolveReferences | lib/db/record.js:124-164 | after it, in the list and in every field of every object, each identifier of a listed or preloaded record has become the first such record, in arrays of any depth; every other value, all lengths, keys and `@` fields are as before |
| PoolRuns.RunBalanced | lib/client/pool/index.js:132-229 | over every run count = available + lent <= max, and clients wait only while nothing is available and count = max |
| PoolRuns.TearDownWhenIdle | lib/client/pool/index.js:243-270 | after every run a closed pool is torn down at a look if and only if nothing is lent, and then nobody waits |
| PoolRuns.ServedInOrderOnce | lib/client/pool/index.js:141-229 | waiters are served first come first served; nobody is served, timed out or refused twice |
| PoolRuns.NobodySharesADatabase | lib/client/pool/index.js:132-229 | over every run, holders told from what clients were given or handed and from the returns alone: no two clients hold one database, what is held is exactly what is lent, at most max, and nobody who waits holds one |
| PoolRuns.AcquireAnswer | lib/client/pool/index.js:132-175 | after every run who asks is refused if and only if the pool was closed, is given a database nobody holds while fewer than max are lent, and waits otherwise |
| Pools.Pool.Acquire | lib/client/pool/index.js:132-175 | lends the first available database, creates one, or queues the client last; refuses while closing |
| Pools.Pool.Release | lib/client/pool/index.js:214-229 | hands the returned database to the first waiter, or makes that database available behind the others |
| Pools.Pool.CheckWaiting | lib/client/pool/index.js:176-186 | rejects a client that still waits and takes it alone out of the list, has no effect on one that was served |
| Pools.Pool.DrainPool | lib/client/pool/index.js:243-270 | polls until every database is back |
| WhereClause.BuildWhere | lib/db/statement.js:892-924 | the reduction computes the fold over the accumulator and the parameter counter and binds each parameter in turn |
| WhereClause.ToCondition | lib/db/statement.js:1076-1105 | texts stay, null says nothing, objects are compiled; one parameter, bound to its value, for each value that is not null |
| WhereClause.ObjectToCondition | lib/db/statement.js:1076-1105 | the loop over the keys: nothing, one comparison, or a parenthesised conjunction, with its parameters |
| WhereRows.ObjectOnRowIff | lib/db/statement.js:1076-1105 | the compiled object is true of exactly the records that meet every field (a value compared under the operator, null for a field that is not set, or set under a negative operator), however values compare, if and only if each parameter is bound to the value of its field |
| WhereRows.ObjectRightIff | lib/db/statement.js:1076-1105 | so an object says what it asks for if and only if no two of its parameters share a name and differ in value |
| WhereRows.EachRightIff | lib/db/statement.js:571-574 | with all parameters of a WHERE in one map, every object in it says what it asks for if and only if no parameter is given two values |
| WhereRows.WhereOnRow | lib/db/statement.js:892-924 | the whole text, with the parameters sent along, is true of a record if and only if the left fold of what the entries ask of that record is, for lists the scan finds safe whose parameters do not clash |
| WhereRows.ParamifyKeeps | lib/db/statement.js:1144-1146 | of a key its letters and digits are kept, in order, and nothing else |
| WhereRows.NoClash | lib/db/statement.js:1144-1146 | keys that do not end in a digit, once all but letters and digits is dropped, never share a parameter |
| WhereRows.NamesClash | lib/db/statement.js:1093-1095 | a1 with number 0 and a with number 10 share a parameter: an object of eleven fields compares a1 with the value of a |
| WhereRows.ThreeEntries | lib/db/statement.js:908-921 | where(x).or(y).and(z), token by token |
| WhereClause.JoinedByAnd | lib/db/statement.js:908-921 | texts without bare OR joined by AND mean the conjunction |
| WhereClause.JoinedByOr | lib/db/statement.js:908-921 | any two texts joined by OR mean the disjunction |
| WhereClause.InParentheses | lib/db/statement.js:919-921 | a parenthesised text means what it meant, next to any operator |
| WhereClause.ObjectMeans | lib/db/statement.js:1076-1105 | the text of an object says that all its comparisons hold |
| WhereClause.TextMeansFold | lib/db/statement.js:892-924 | entries joined safely: the text read with AND tighter than OR says what the left fold says, under every truth of its comparisons; empty objects are neutral |
| WhereClause.WhereMeansFold | lib/db/statement.js:1162-1173 | so for all lists of non-null conditions whose own texts have no bare OR |
| WhereExactly.MeansFoldIffSafe | lib/db/statement.js:892-924 | for entries without a shared comparison, null ones included, the text says what the fold says, whatever is true, if and only if no AND stands next to a bare OR and no operator in front of everything |
| WhereScan.SafeIffScan | lib/db/statement.js:892-924 | what the text built so far decides, a scan of the entries decides: the operator in force, whether anything is joined yet, whether an OR stands bare |
| WhereScan.MeansFoldIff | lib/db/statement.js:892-924 | so the text says what the fold says, whatever is true, if and only if that scan of the entries finds no AND next to a bare OR and no operator in front |
| WhereScan.TightIff | lib/db/statement.js:908-921 | a text that reads is one term if and only if no OR stands outside parentheses |
| WhereExactly.UnsafeIsMisread | lib/db/statement.js:892-924 | for every unsafe list there is a truth under which the text and the fold differ |
| WhereExactly.OperatorFirst | lib/db/statement.js:897-913 | a first null condition followed by the same operator makes a text that starts with the operator, which no later entry repairs |
| WhereExactly.NullKeepsGroupOpen | lib/db/statement.js:897-900 | a null condition changes the operator without closing the group, and the text is misread |

## Left out

- Sockets, TLS, timers, promise scheduling, event emitters, `generic-pool`, the REST transport, the command line tool, migrations and logging: input and output or foreign code.
- `parseElement`, `parsePushedData` and `parseLivePush` in operation.js: the first is used by no reader that is modelled, the others by none; the streaming readers of queries and record loading are not modelled either.
- The deserializer inside `consume`: a `Decoded` value stands for the record made of the bytes; Documents models that deserializer on its own. Transformer functions for classes are the caller's code.
- Documents.ParseText: a negative string length, which takes the offset backwards, fails here; so does the negative length of a decimal. Projections, which are read without class names, are not modelled.
- DocumentReader.ReadValue: the bytes of a negative decimal, which the source flips in the input, stay as they are here; Decimals models that. Single-precision numbers, decimals and bags are what the reader makes of them, and how the serializer would write these again is not modelled.
- Numbers beyond 2^53 are not rounded, neither in `signed-varint` nor in `Long.toNumber`; `node-biginteger` is taken to compute big-endian magnitudes and the low 64 bits.
- Functions as field values, for which the serializer writes a key and no value, a field called `__proto__`, and JavaScript's listing of integer-like keys before others.
- DocumentWriter.SerializeDocument: requires a class name that is text and lists headed by a link to hold links only; for anything else the source throws or writes undefined fields.
- CsvText.PrintValue: objects with a `toOrient` method and undefined values are not modelled.
- CsvText.PrintMap: a plain map whose "@class" or "@" is itself an object, an array or a date is printed in front as JavaScript turns it into text, which is not modelled.
- CsvText.EatValue: link bags and base 64 are not modelled; text on which an array loop of the source never ends has no result.
- Transactions.DatabaseTx.Answered: answers come in the order of the messages, as they do on one connection; the fetch of the cluster list in front of a message, and what follows an answer in the promise chain, are part of the same step. `applyUpdated` and `applyDeleted`, which search in the same way without renaming, failures and rollback are not modelled.
- References.ResolveReferences: requires records that are trees with identifiers of their own and no arrays among the listed records; with duplicates in both lists the source can return one instance and link to another. Link bags keep the collated records aside and are not modelled.
- PoolRuns.RunBalanced: requires that each lent database is returned once; the source does not notice a second return.
- WhereExactly.MeansFoldIffSafe: requires that no comparison occurs in two entries; with shared comparisons an unsafe text can mean the fold by accident.
- `shiftServer`, retries in server and session managers, and the statement builder apart from WHERE: easy, or bound to input and output.
- WhereRows.WhereOnRow: one direction; when parameters clash the whole text can still mean the fold, since a clause next to it may absorb the wrong comparison. For single objects `ObjectRightIff` is exact. What a caller's own text says of a record is open, and so is what the operators compare.
