# WebSocket game: verified model

A Dafny model of the hard parts of a two-player game: the WebSocket++ library
its client is built on, the matchmaking of its server, and the collision test
of its client. `dafny verify dfyconfig.toml` checks everything.

## What is modelled

- **Connection lifecycle and write pump** (`SessionModel`, `WritePump`,
  `Silence`, `Lifecycle`, `Liveness`, `NegotiationBreach`, `SecondClose`,
  `StalledRuns`, `Effects`, `Soundness`, `Connection`). A connection is driven
  by user calls, transport completions and timers. Each handler is one atomic
  step of a transition system; the callbacks the transport still owes are a multiset, any
  of which may be delivered next, and user handlers may call back into the
  connection. `Connection.dfy` is the object with its fields and methods, each
  proved to take the state where the transition system says and to keep to what
  it may do. `WritePump` and `Silence` hold of every run. `Lifecycle` says which
  runs call no user handler too often or out of order, and `Liveness` which ones
  call the handlers they owe; together they give the documented contract of the
  handlers its exact condition. `Effects` says from outside what each call, frame
  and handshake leads to.
- **Streaming codecs against one-shot specifications**: the MD5 buffer and
  padding (`Md5`, with the compression function as a parameter), the UTF-8
  automaton (`Utf8`, `Utf8Validation`), word-wise masking (`Words`, `Masking`)
  and the first framing under arbitrary read boundaries (`Hybi00`).
- **Printers and parsers**: the frame header (`FrameHeader`), base64
  (`Base64`), URIs (`Uri`), HTTP quoted strings and parameter lists
  (`HttpParser`, `HttpPrinting`, `HttpGrammar`).
- **Game code**: matchmaking (`Matchmaking`, `Pairing`) and axis-separated
  movement (`Movement`).

`Bytes`, `Arithmetic`, `Search` and `Wrappers` hold what several of these share.

## Where the code differs from its apparent intent

The model follows the code; each case below names the theorem that says exactly
when it matters.

- A client whose extension negotiation fails terminates the connection and
  then opens it (connection_impl.hpp, lines 1619-1635). That sets the state back
  from closed to open within one handler (`StateOnlyMovesForward`) and makes the
  open handler fire and then the fail handler, once the shutdown completes
  (`OnlyNegotiationCallsBoth`, with the run `BothHandlersFire`); both happen in
  exactly the runs in which a negotiation fails. What is proved about the write
  pump and about close frames holds in those runs as well.
- Three branches leave a connection waiting for nothing (`OwedWhatCarriesOn`,
  `ClosesUnlessStalled`), and two of them break the documented contract of the
  handlers (`EveryAttemptIsAnswered`):
  - A client that cannot prepare its request returns without an error (lines
    1441-1451). With version 0 that is every client, because the processor always
    refuses (hybi00.hpp, lines 158-162). No timer has been set, so neither the
    open nor the fail handler is ever called: `RequestNeverSent`.
  - A processor error that is answered with a close frame ends the reading (lines
    1058-1081). If the close code is not terminal, as for errors of another
    category (processors/base.hpp, lines 261-264), only the close timer ends the
    connection; should it end in an error, the close handler is never called:
    `NeverReadsAgain`.
  - A deferred HTTP answer (lines 921-926) waits for the user, whose answer is not
    part of this model, or for the open timer. That keeps the contract, since
    HTTP requests call neither handler.
- A malformed close payload received while already closing sends a second close
  frame (lines 1982-2018): `OneCloseFrameExactly`, with the run `TwoCloseFrames`.
- `string_replace_all` does not terminate for an empty search string
  (`EmptySearchNeverEnds`), so `StringReplaceAll` requires a non-empty one.
- A quoted string whose value ends in a backslash does not parse back:
  `QuotedRoundTrip`.
- A parameter list that ends in a comma or a semicolon is accepted if whitespace
  follows, and is an error otherwise: `ParametersArePrinted`.
- `str()` of a URI drops the brackets of a literal host: `RoundTrip`.
- In the server, the type a client starts with is undefined, and the partner
  search uses a variable that hides the one used afterwards, so the partner of
  a client is always the next one. Identifiers are clock readings and can
  collide: `UpdateReachesPartner` says exactly when that matters.
- `World::move` can end inside an obstacle after a diagonal move past a corner
  (`EndsClear`), and from inside an obstacle it can stop before it has seen all
  of them (`MoveFollowsRule`).

## Model

| member | source | states |
|---|---|---|
| `WritePump.RunsAreFifo` | client/external/websocketpp/websocketpp/impl/connection_impl.hpp:1793-1928 | In every run, for server and client, the messages ever pushed are the messages handed to `async_write` followed by the send queue, and `m_send_buffer_size` is the sum of the queued payload sizes: nothing lost, doubled or reordered |
| `WritePump.RunsWriteOneBatchAtATime` | client/external/websocketpp/websocketpp/impl/connection_impl.hpp:1797-1886 | In every run at most one transport write is outstanding, exactly while `m_current_msgs` is non-empty; meanwhile `m_write_flag` is set and the batch is the tail of what was written |
| `WritePump.RunsLoseNoWakeup` | client/external/websocketpp/websocketpp/impl/connection_impl.hpp:1907-1927 | In every run a non-empty queue with the write flag free has a `write_frame` dispatch on its way |
| `WritePump.NothingAfterTerminal` | client/external/websocketpp/websocketpp/impl/connection_impl.hpp:1807-1817 | Once a terminal message has been handed to the transport, no continuation of any run writes anything more |
| `WritePump.QueueDrains` | client/external/websocketpp/websocketpp/impl/connection_impl.hpp:1889-1928 | From any state the invariant allows, with nothing terminal pushed and the flag set only while a batch is held, delivering the owed completion and dispatch puts the whole queue on the wire in order |
| `Soundness.RunsDrain` | client/external/websocketpp/websocketpp/impl/connection_impl.hpp:1889-1928 | In every run, as long as the connection is not closed and nothing terminal was pushed, the owed completion and dispatch put everything pushed so far on the wire |
| `WritePump.BatchStopsAtTerminal` | client/external/websocketpp/websocketpp/impl/connection_impl.hpp:1800-1817 | A batch is never empty on a non-empty queue, takes everything when nothing is terminal, and otherwise ends with the first terminal message |
| `WritePump.TakeKeeps` | client/external/websocketpp/websocketpp/impl/connection_impl.hpp:1793-1886 | Taking a batch keeps the whole pump invariant and leaves a batch exactly when something was queued |
| `WritePump.ApplyKeeps` | client/external/websocketpp/websocketpp/impl/connection_impl.hpp:104-2248 | Every event, whichever callback is delivered next and whatever the user handlers call, keeps the pump invariant |
| `Lifecycle.StateOnlyMovesForward` | client/external/websocketpp/websocketpp/impl/connection_impl.hpp:1351-1430 | In every run the values ever given to `m_state`, also those given inside a handler, only move forward through connecting, open, closing, closed if and only if no extension negotiation fails in the run |
| `Lifecycle.HandlersAtMostOnce` | client/external/websocketpp/websocketpp/connection.hpp:51-79 | The half of the documented contract that bounds the calls: in every run without a failing negotiation open and fail together fire at most once, close only after open, fail and close together at most once, `async_shutdown` starts at most once, and once the shutdown is complete close was called exactly if open was |
| `Lifecycle.OnlyNegotiationCallsBoth` | client/external/websocketpp/websocketpp/impl/connection_impl.hpp:1615-1650 | That half is broken, by a run as it stands or as soon as a failed shutdown it still owes completes, if and only if an extension negotiation failed in the run |
| `Liveness.EveryAttemptIsAnswered` | client/external/websocketpp/websocketpp/connection.hpp:51-79 | The whole documented contract: of a started connection whose owed callbacks have all been delivered, open or fail was called once (neither, if an HTTP handler answered) and close once for every open, if and only if in its run no negotiation failed, no request went unprepared for good, and no processor error left it unread for good |
| `Liveness.ClosesUnlessStalled` | client/external/websocketpp/websocketpp/impl/connection_impl.hpp:716-2158 | In every run of a started connection, failing negotiations included, once everything owed has been delivered the connection is closed if and only if the run did not stall; one that stalled has written all it pushed, with no terminal message among it |
| `Liveness.OwedWhatCarriesOn` | client/external/websocketpp/websocketpp/impl/connection_impl.hpp:716-1690 | In every run a started connection is closed or owed exactly the one callback that takes it out of its internal state, if and only if the run did not stall |
| `Liveness.EventGoes` | client/external/websocketpp/websocketpp/impl/connection_impl.hpp:716-1690 | Every event leaves a connection carried on in that sense, or takes one of the three branches that stall it; a closed connection stays closed |
| `Liveness.EventDrifts` | client/external/websocketpp/websocketpp/impl/connection_impl.hpp:1653-1928 | What closes a stalled connection is a second start, a timer that fires, or a write that failed or was terminal, and nothing else |
| `StalledRuns.RequestNeverSent` | client/external/websocketpp/websocketpp/impl/connection_impl.hpp:1434-1452 | A concrete run of a client whose processor cannot prepare the request (any client with version 0): connecting, nothing owed, and neither open nor fail ever called |
| `StalledRuns.NeverReadsAgain` | client/external/websocketpp/websocketpp/impl/connection_impl.hpp:1058-1081 | A concrete run in which a processor error is answered with a close frame that is not terminal and the close timer ends in an error: closing, nothing owed, open called and close never |
| `Lifecycle.EventKeepsInvariant` | client/external/websocketpp/websocketpp/impl/connection_impl.hpp:1615-1650 | An event keeps the lifecycle invariant if and only if it is not a valid client handshake response whose extension negotiation fails |
| `NegotiationBreach.BothHandlersFire` | client/external/websocketpp/websocketpp/impl/connection_impl.hpp:1619-1635 | A concrete run with a failing negotiation: the open and the fail handler both fire, and the connection is open after its transport was shut down |
| `Silence.ApplyStep` | client/external/websocketpp/websocketpp/impl/connection_impl.hpp:104-2248 | In every run, failing negotiations included, each event keeps the closing invariant and takes back no pushed message and no past state |
| `Silence.CloseSilence` | client/external/websocketpp/websocketpp/impl/connection_impl.hpp:2065-2158 | In every run, once a close frame is pushed no data, ping or pong frame is ever pushed, and a closing connection has pushed a close frame (section 5.5.1 of RFC 6455) |
| `Silence.SecondCloseFrame` | client/external/websocketpp/websocketpp/impl/connection_impl.hpp:1982-2018 | An event pushes a second close frame if and only if, among the frames it reads, a malformed close frame is answered while the connection is closing, with errors not dropping it and a message buffer granted |
| `Silence.OneCloseFrameExactly` | client/external/websocketpp/websocketpp/impl/connection_impl.hpp:1982-2037 | A run pushes at most one close frame, as its last message, if and only if no event of it does that |
| `Silence.OneCloseFrame` | client/external/websocketpp/websocketpp/impl/connection_impl.hpp:1982-2037 | So every run pushes at most one close frame if protocol errors drop the connection, whatever the peer sends, or if the peer sends no malformed close frame |
| `SecondClose.TwoCloseFrames` | client/external/websocketpp/websocketpp/impl/connection_impl.hpp:2003-2018 | A concrete run that pushes two close frames: the open handler closes, and the same read holds a malformed close frame |
| `ConnectionObject.Connection.WritePush` | client/external/websocketpp/websocketpp/impl/connection_impl.hpp:2210-2225 | Pushing keeps what was pushed equal to what was written followed by the queue, and the byte counter exact |
| `ConnectionObject.Connection.WritePop` | client/external/websocketpp/websocketpp/impl/connection_impl.hpp:2228-2248 | Removes and returns the first message and its payload size, or returns nothing from an empty queue |
| `ConnectionObject.Connection.PopBatch` | client/external/websocketpp/websocketpp/impl/connection_impl.hpp:1800-1817 | The popping loop moves exactly the first batch, in order, and takes its size off the counter |
| `ConnectionObject.Connection.WriteFrame` | client/external/websocketpp/websocketpp/impl/connection_impl.hpp:1793-1886 | Does nothing while a write is under way or the queue is empty; otherwise sets the flag, hands the batch over and owes one completion |
| `ConnectionObject.Connection.HandleWriteFrame` | client/external/websocketpp/websocketpp/impl/connection_impl.hpp:1889-1928 | A completed write pushes and writes nothing; after an error or a terminal message the connection is closed with the flag held, otherwise the flag is free and a waiting queue has a dispatch on its way; the invariants of pump and closing are whole again |
| `ConnectionObject.Connection.Terminate` | client/external/websocketpp/websocketpp/impl/connection_impl.hpp:1698-1748 | Always ends in closed with the error noted, starts the transport shutdown only on the way there, as failed or as having been open, calls no handler and leaves the queue alone |
| `ConnectionObject.Connection.HandleTerminated` | client/external/websocketpp/websocketpp/impl/connection_impl.hpp:1751-1790 | Calls the fail handler or the close handler but not both, and neither when an HTTP handler ended the connection; on a closed connection nothing the handler calls has an effect |
| `ConnectionObject.Connection.SendMessage` | client/external/websocketpp/websocketpp/impl/connection_impl.hpp:104-152 | Succeeds only in state open, and then exactly that message has been pushed; no invariant is lost |
| `ConnectionObject.Connection.Ping` | client/external/websocketpp/websocketpp/impl/connection_impl.hpp:155-221 | Pushes a ping exactly when the connection is open and a buffer is granted, and never leaves it without a write or a dispatch to come |
| `ConnectionObject.Connection.Pong` | client/external/websocketpp/websocketpp/impl/connection_impl.hpp:252-292 | Pushes a pong exactly when the connection is open and a buffer is granted, and never leaves it without a write or a dispatch to come |
| `ConnectionObject.Connection.Close` | client/external/websocketpp/websocketpp/impl/connection_impl.hpp:304-323 | Succeeds only in state open, and then the connection is closing and the close frame is pushed, terminal exactly for the codes 1002, 1007, 1008, 1009 and 1011; an error leaves everything as it was |
| `ConnectionObject.Connection.SendCloseFrame` | client/external/websocketpp/websocketpp/impl/connection_impl.hpp:2065-2158 | All or nothing: the connection is closing with the close timer set and one close frame on its way out, or nothing changed |
| `ConnectionObject.Connection.ReceiveClose` | client/external/websocketpp/websocketpp/impl/connection_impl.hpp:1982-2037 | Pushes nothing but one close frame; while closing, exactly when a malformed frame is answered again, and the first well-formed one ends the connection of a server; a granted answer always ends the open state |
| `ConnectionObject.Connection.DispatchFrame` | client/external/websocketpp/websocketpp/impl/connection_impl.hpp:1937-2055 | An open connection pushes what the calls of the handler push and then the answer to the frame: to a ping a pong, exactly if the ping handler wants one, a buffer is granted and the calls left the connection open; a closed connection ignores every frame, a closing one pushes only to answer a malformed close frame again, and no frame calls the open, fail or close handler |
| `ConnectionObject.Connection.ConsumeFailed` | client/external/websocketpp/websocketpp/impl/connection_impl.hpp:1058-1081 | Whatever the state was, a processor error leaves the connection closing or closed: closing, with the close frame for its code pushed, exactly from open without drop-on-error and with a buffer, and otherwise closed with nothing pushed |
| `ConnectionObject.Connection.HandleReadFrame` | client/external/websocketpp/websocketpp/impl/connection_impl.hpp:965-1106 | After a transport error the connection is closed with its queue untouched and the error noted, except the end of input that a closed connection or a closing client expects; otherwise the answers to the frames of the read come first; in any case no message is taken back or written and both invariants are kept |
| `ConnectionObject.Connection.Begin` | client/external/websocketpp/websocketpp/impl/connection_impl.hpp:716-737 | A second start closes the connection, a first one cannot be repeated; neither touches the queue or a handler |
| `ConnectionObject.Connection.HandleTransportReady` | client/external/websocketpp/websocketpp/impl/connection_impl.hpp:740-771 | Stays in its state or closes, always closes on an error, otherwise owes the handshake timer and the first read or write; pushes and writes nothing and calls no handler |
| `ConnectionObject.Connection.HandleHandshakeRead` | client/external/websocketpp/websocketpp/impl/connection_impl.hpp:804-941 | Opens nothing, pushes nothing and calls none of the three handlers; a request that is answered owes the response, which switches protocols exactly if it was accepted; afterwards the connection is closed, or still connecting after no error |
| `ConnectionObject.Connection.RespondHttpError` | client/external/websocketpp/websocketpp/impl/connection_impl.hpp:949-960 | Either a response that does not switch protocols is being written, or the connection is closed |
| `ConnectionObject.Connection.HandleResponseWritten` | client/external/websocketpp/websocketpp/impl/connection_impl.hpp:1351-1431 | Calls the open handler exactly when the awaited 101 response was written without an error; otherwise the connection ends closed with its queue untouched, an HTTP one noted as ended |
| `ConnectionObject.Connection.HandleRequestSent` | client/external/websocketpp/websocketpp/impl/connection_impl.hpp:1493-1543 | Goes on to owe the reading of the response, or the connection is closed; pushes nothing and calls no handler |
| `ConnectionObject.Connection.HandleResponseRead` | client/external/websocketpp/websocketpp/impl/connection_impl.hpp:1546-1650 | Calls the open handler exactly when the awaited response was read without an error and is valid; otherwise the connection is closed or waits for more, with its queue untouched |
| `ConnectionObject.Connection.HandleTimeout` | client/external/websocketpp/websocketpp/impl/connection_impl.hpp:1666-1695 | A timer that fires closes the connection and shuts the transport down at most once, one that was cancelled changes nothing, and neither touches the queue |
| `ConnectionObject.Connection.Take` | client/external/websocketpp/websocketpp/impl/connection_impl.hpp:104-2248 | One step of a run on the object: it goes where the transition system says, keeps the pump and closing invariants and takes nothing back, and keeps the lifecycle invariant exactly if no negotiation fails |
| `Effects.CallsSay` | client/external/websocketpp/websocketpp/impl/connection_impl.hpp:104-323 | What the calls of a handler push on an open connection: the message of each, in order, up to and including the first granted close, which ends the open state |
| `Effects.FrameSays` | client/external/websocketpp/websocketpp/impl/connection_impl.hpp:1937-2055 | For every frame and every processor error on an open connection: exactly what is pushed, the state afterwards, the error noted, and whether the close was clean |
| `Effects.ClosingFrameSays` | client/external/websocketpp/websocketpp/impl/connection_impl.hpp:1982-2055 | The same while closing: only malformed close frames are answered, and the first well-formed one ends the connection of a server |
| `Effects.FramesSay` | client/external/websocketpp/websocketpp/impl/connection_impl.hpp:1032-1106 | The frames of a read are answered one after the other; if none ends the open state, nothing else is pushed and the next read is asked for |
| `Effects.OpeningSays` | client/external/websocketpp/websocketpp/impl/connection_impl.hpp:1421-1431 | Opening pushes first what the open handler calls push and then, if it did not close, the answers to the frames that came with the handshake |
| `Effects.RequestSays` | client/external/websocketpp/websocketpp/impl/connection_impl.hpp:804-960 | For every request a server reads: whether it is answered, with which error and whether the answer switches protocols, or how the connection ends |
| `Effects.AnswerDecides` | client/external/websocketpp/websocketpp/impl/connection_impl.hpp:1351-1431 | A request that is answered calls the open handler if the answer switches protocols, and otherwise, after the shutdown, the fail handler, unless it was a plain HTTP request, which calls neither |
| `Effects.HandlersCalled` | client/external/websocketpp/websocketpp/impl/connection_impl.hpp:1351-1790 | Every event calls at most one of the open, fail and close handlers: open for an awaited response that switches or is valid, fail or close when the shutdown completes, depending on how the connection ended |
| `Md5.PaddedIsWhole` | client/external/websocketpp/websocketpp/common/md5.hpp:393-411 | The pad has between 1 and 64 bytes, brings the length to 56 modulo 64, and with the length field fills whole blocks |
| `Md5.CountsAdvance` | client/external/websocketpp/websocketpp/common/md5.hpp:362-371 | Adding the two halves of the bit count with the carry keeps the count words equal to the bit length modulo 2^64 |
| `Md5.CountsOffset` | client/external/websocketpp/websocketpp/common/md5.hpp:360-361 | The low count word always gives the number of buffered bytes and the right pad length |
| `Md5.FoldAppend` | client/external/websocketpp/websocketpp/common/md5.hpp:384-386 | Compressing two runs of blocks one after the other is compressing their concatenation |
| `Md5.SplitLittleEndian` | client/external/websocketpp/websocketpp/common/md5.hpp:403-405 | The eight length bytes written from the two count words are the 64-bit length, low byte first, modulo 2^64 |
| `Md5.State.constructor` | client/external/websocketpp/websocketpp/common/md5.hpp:349-355 | The initial registers, zero counts and an empty buffer stand for the empty message |
| `Md5.State.Append` | client/external/websocketpp/websocketpp/common/md5.hpp:357-391 | Appending any data to the state of a message gives the state of the longer message: registers over its full blocks, buffer the rest, counts its bit length |
| `Md5.State.FillBlock` | client/external/websocketpp/websocketpp/common/md5.hpp:373-382 | Completing a buffered partial block compresses exactly that block, or buffers all the data |
| `Md5.State.ProcessBlocks` | client/external/websocketpp/websocketpp/common/md5.hpp:384-391 | Full blocks are compressed straight from the data and the rest is kept |
| `Md5.State.Finish` | client/external/websocketpp/websocketpp/common/md5.hpp:393-412 | The digest is 16 bytes, byte i being byte i % 4, low-order first, of register i / 4 after the compression was folded over the message padded as sections 3.1 and 3.2 of RFC 1321 prescribe |
| `Md5.HashString` | client/external/websocketpp/websocketpp/common/md5.hpp:415-428 | Hashing a string in one call gives those 16 bytes |
| `Md5.HashChunks` | client/external/websocketpp/websocketpp/common/md5.hpp:357-412 | So does appending it in any chunks |
| `Md5.InitialBytes` | client/external/websocketpp/websocketpp/common/md5.hpp:349-355 | The four registers start as the bytes 01 23 45 67 89 ab cd ef fe dc ba 98 76 54 32 10 in memory (section 3.3 of RFC 1321) |
| `Md5.PaddedBytes` | client/external/websocketpp/websocketpp/common/md5.hpp:393-408 | The padded message is the message, the byte 0x80, zeros, and in the last eight bytes the length in bits modulo 2^64, low-order byte first (sections 3.1 and 3.2) |
| `Utf8.ClassIs` | client/external/websocketpp/websocketpp/utf8_validator.hpp:45-60 | The 256 class entries of the table, as ranges of bytes |
| `Utf8.TransitionIs` | client/external/websocketpp/websocketpp/utf8_validator.hpp:45-60 | The transition entries of the table, as cases over states and classes |
| `Utf8.TransitionBound` | client/external/websocketpp/websocketpp/utf8_validator.hpp:69-78 | No state or class takes the table index past 400, and every successor is a state |
| `Utf8Validation.CharacterIsEncoding` | client/external/websocketpp/websocketpp/utf8_validator.hpp:45-78 | The byte sequences of section 4 of RFC 3629 are exactly the encodings of section 3 of the scalar values up to U+10FFFF without surrogates |
| `Utf8Validation.DecodesCharacter` | client/external/websocketpp/websocketpp/utf8_validator.hpp:69-78 | From accept, a whole character leads back to accept and leaves its code point, whatever the code point was before |
| `Utf8Validation.RejectAbsorbs` | client/external/websocketpp/websocketpp/utf8_validator.hpp:69-78 | Once rejected, every continuation is rejected |
| `Utf8Validation.AcceptsIff` | client/external/websocketpp/websocketpp/utf8_validator.hpp:69-78 | From any state the automaton ends in accept if and only if the text completes the character begun and goes on with whole characters |
| `Utf8Validation.AcceptsExactlyUtf8` | client/external/websocketpp/websocketpp/utf8_validator.hpp:143-149 | The automaton accepts a byte string if and only if it is a concatenation of characters of RFC 3629 |
| `Utf8Validation.NoFF` | client/external/websocketpp/websocketpp/utf8_validator.hpp:45-60 | Accepted text contains no byte 0xFF |
| `Utf8Validation.RunAppend` | client/external/websocketpp/websocketpp/utf8_validator.hpp:105-118 | Feeding two pieces one after the other is feeding their concatenation |
| `Utf8Validation.Validator.Consume` | client/external/websocketpp/websocketpp/utf8_validator.hpp:91-96 | After a byte exactly those texts are accepted that were accepted after it before, and the answer is false exactly when no continuation can make the text valid |
| `Utf8Validation.Validator.Decode` | client/external/websocketpp/websocketpp/utf8_validator.hpp:105-118 | Stopping early at the first rejecting byte leaves the verdict of the whole chunk |
| `Utf8Validation.Validate` | client/external/websocketpp/websocketpp/utf8_validator.hpp:143-149 | True if and only if the string is UTF-8 |
| `Utf8Validation.ValidateChunks` | client/external/websocketpp/websocketpp/utf8_validator.hpp:105-132 | Decoding a text in any chunks gives the verdict on the whole |
| `Utf8Validation.ValidateEach` | client/external/websocketpp/websocketpp/utf8_validator.hpp:129-132 | One validator, reset between messages, gives each message its own verdict |
| `Masking.MaskingTwice` | client/external/websocketpp/websocketpp/frame.hpp:644-655 | Masking twice with one key and offset gives the payload back |
| `Masking.PreparedAtZero` | client/external/websocketpp/websocketpp/frame.hpp:595-606 | Byte j of the prepared key in memory is key byte j modulo 4, on both word sizes and byte orders |
| `Masking.CircShiftRotates` | client/external/websocketpp/websocketpp/frame.hpp:612-626 | Rotating a prepared key rotates its bytes in memory to the left, on both word sizes and byte orders |
| `Masking.PreparedShift` | client/external/websocketpp/websocketpp/frame.hpp:612-626 | Rotating by n takes a key prepared for offset L to one prepared for offset L + n |
| `Masking.ByteMaskLoop` | client/external/websocketpp/websocketpp/frame.hpp:644-655 | The byte loop flips exactly the bits of byte i that are set in key byte (offset + i) modulo 4, and leaves the rest of the buffer alone |
| `Masking.WordMaskExact` | client/external/websocketpp/websocketpp/frame.hpp:702-727 | Word-wise masking flips exactly the bits set in the key repeated from its first byte, for every length, in place or between buffers, and leaves the rest alone |
| `Masking.WordMaskCirc` | client/external/websocketpp/websocketpp/frame.hpp:768-797 | Exactly the bits are flipped that are set in the prepared key at their place in the word, the rest is left alone, and the key comes back rotated by the length |
| `Masking.ByteMaskCirc` | client/external/websocketpp/websocketpp/frame.hpp:830-847 | The byte-wise form flips exactly the bits set in the four low bytes of the prepared key and returns it rotated by the length modulo 4 |
| `Masking.WordStep` | client/external/websocketpp/websocketpp/frame.hpp:768-797 | On a key prepared for offset L, one word-wise call is byte masking from offset L and hands over a key prepared for L + length |
| `Masking.WordAndByteAgree` | client/external/websocketpp/websocketpp/frame.hpp:830-847 | On a prepared key the word-wise and byte-wise forms give the same bytes and the same returned key |
| `Masking.MaskStream` | client/external/websocketpp/websocketpp/frame.hpp:768-847 | A message masked in any chunks, each word-wise or byte-wise at will, has bit k of byte i flipped if and only if bit k of key byte i modulo 4 is set (section 5.3 of RFC 6455) |
| `Words.BitwiseAt` | client/external/websocketpp/websocketpp/frame.hpp:644-655 | A bit of `a ^ b` is set exactly if it is set in one of the two only, a bit of `a | b` exactly if it is set in either |
| `Words.HasBitIs` | client/external/websocketpp/websocketpp/frame.hpp:321-433 | Bit k is the binary digit of weight 2^k |
| `FrameHeader.Htonll` | client/external/websocketpp/websocketpp/common/network.hpp:66-86 | Swapping the eight bytes in memory on a little-endian machine, and nothing on a big-endian one |
| `FrameHeader.NetworkImage` | client/external/websocketpp/websocketpp/common/network.hpp:66-100 | In network order the eight bytes in memory read most significant first on either machine |
| `FrameHeader.BuildBasicHeader` | client/external/websocketpp/websocketpp/frame.hpp:194-228 | Or-ing flags, opcode, mask bit and length code into zero bytes gives the two bytes of section 5.2 of RFC 6455 |
| `FrameHeader.FlagGetters` | client/external/websocketpp/websocketpp/frame.hpp:321-388 | FIN and the three reserved bits read back |
| `FrameHeader.BasicGetters` | client/external/websocketpp/websocketpp/frame.hpp:393-433 | The opcode, the mask bit and the length code read back |
| `FrameHeader.SettersTouchOneField` | client/external/websocketpp/websocketpp/frame.hpp:330-413 | Each setter changes what its getter returns and nothing else that can be read |
| `FrameHeader.CopyPayload` | client/external/websocketpp/websocketpp/frame.hpp:260-274 | Copies no, two or eight length bytes, most significant first, and returns where the key goes |
| `FrameHeader.BuildExtendedHeader` | client/external/websocketpp/websocketpp/frame.hpp:240-256 | The length field, then the key, then zeros, on either kind of machine |
| `FrameHeader.LengthFieldsAreBigEndian` | client/external/websocketpp/websocketpp/frame.hpp:540-559 | Both length fields are read most significant byte first on either kind of machine |
| `FrameHeader.PrintedShape` | client/external/websocketpp/websocketpp/frame.hpp:445-502 | A header prints as two bytes, length field and key, in `get_header_len` bytes and at most 14 |
| `FrameHeader.HeaderRoundTrip` | client/external/websocketpp/websocketpp/frame.hpp:489-585 | Reading a printed header, whatever follows it and whatever the buffer held before, returns every field, for every 64-bit size, on either kind of machine |
| `FrameHeader.WireFormat` | client/external/websocketpp/websocketpp/frame.hpp:194-256 | Byte by byte the header of section 5.2 of RFC 6455: flags by weight and opcode; mask bit and a length up to 125, or 126 and two bytes, or 127 and eight, most significant first; the key |
| `FrameHeader.GettersAreBits` | client/external/websocketpp/websocketpp/frame.hpp:321-433 | Each flag getter reads the bit of its weight: 128, 64, 32 and 16 in the first byte, 128 in the second |
| `FrameHeader.PrefixFree` | client/external/websocketpp/websocketpp/frame.hpp:489-502 | If one header is a prefix of another they carry the same fields |
| `FrameHeader.ShortestForm` | client/external/websocketpp/websocketpp/frame.hpp:214-226 | No header with the same size and masking is shorter |
| `Hybi00.Processor.Consume` | client/external/websocketpp/websocketpp/processors/hybi00.hpp:252-307 | The loop with find and bulk copies does what reading byte by byte does: same reader state, same count, same error |
| `Hybi00.EatProgresses` | client/external/websocketpp/websocketpp/processors/hybi00.hpp:252-307 | A call with bytes, in a state that reads, advances or reports an error; an error means the fatal state, and bytes are left over only when a message is ready or the reader failed |
| `Hybi00.EatFeeds` | client/external/websocketpp/websocketpp/processors/hybi00.hpp:252-307 | One call of consume, with get_message if ready, and later calls on what is left amount to the bytes one at a time |
| `Hybi00.Processor.GetMessage` | client/external/websocketpp/websocketpp/processors/hybi00.hpp:317-322 | Returns the message, forgets it and goes back to the header state |
| `Hybi00.HandleRead` | client/external/websocketpp/websocketpp/impl/connection_impl.hpp:1032-1103 | The read loop delivers what the bytes of the read say, in order, and stops at the first error |
| `Hybi00.ReadAll` | client/external/websocketpp/websocketpp/impl/connection_impl.hpp:1032-1106 | Over all reads of a connection the delivered messages and the error depend only on the concatenation of the reads |
| `Hybi00.BytesAreAccountedFor` | client/external/websocketpp/websocketpp/processors/hybi00.hpp:252-307 | As long as no error came up, the bytes read are the delivered messages between 0x00 and 0xFF followed by the part of the next one, with one buffer used for each |
| `Hybi00.DeliversExactly` | client/external/websocketpp/websocketpp/processors/hybi00.hpp:252-322 | Messages put on the wire are delivered exactly as sent if and only if none contains 0xFF and the message manager has a buffer for each |
| `Hybi00.PrefixDelivers` | client/external/websocketpp/websocketpp/processors/hybi00.hpp:252-322 | At every point of the transfer what was delivered is a prefix of what was sent |
| `Hybi00.ErrorsMean` | client/external/websocketpp/websocketpp/processors/hybi00.hpp:252-307 | Reading fails exactly at the byte after the delivered messages: as a protocol violation if it is not 0x00, for want of a buffer if it is and every buffer has been used |
| `Hybi00.WireIs` | client/external/websocketpp/websocketpp/processors/hybi00.hpp:329-369 | Messages on the wire are their payloads, each between 0x00 and 0xFF |
| `Hybi00.PrepareDataFrame` | client/external/websocketpp/websocketpp/processors/hybi00.hpp:329-369 | Null messages, opcodes other than text and payloads that are not UTF-8 are refused without a change; otherwise the payload stands between 0x00 and 0xFF |
| `Hybi00.AcceptedMessagesArrive` | client/external/websocketpp/websocketpp/processors/hybi00.hpp:329-369 | Messages that `prepare_data_frame` accepts, cut into reads anywhere, are delivered exactly, in order (section 1.2 of draft-ietf-hybi-thewebsocketprotocol-00) |
| `Hybi00.Transfer` | client/external/websocketpp/websocketpp/processors/hybi00.hpp:329-369 | Text messages prepared, put on the wire, cut into reads of any sizes and read: the message handler is given exactly those that are valid UTF-8, in order, as long as the message manager has buffers |
| `HttpParser.TokenTable` | client/external/websocketpp/websocketpp/http/constants.hpp:78-97 | The table of token characters is exactly CHAR without CTLs and separators of section 2.2 of RFC 2616 |
| `HttpParser.ExtractToken` | client/external/websocketpp/websocketpp/http/parser.hpp:73-78 | Returns the longest run of token characters and the cursor after it |
| `HttpParser.ExtractQuotedString` | client/external/websocketpp/websocketpp/http/parser.hpp:92-127 | The loop over quotes with a marker returns the unescaped text and the cursor after the closing quote, or begin and nothing if there is no whole quoted string |
| `HttpParser.ExtractAllLws` | client/external/websocketpp/websocketpp/http/parser.hpp:139-177 | Terminates, stays in range and skips all linear whitespace |
| `HttpParser.ExtractAttributes` | client/external/websocketpp/websocketpp/http/parser.hpp:195-276 | Terminates on every input with the cursor in range; returns begin exactly on a syntax error or empty input, keeping the attributes read before it |
| `HttpParser.ExtractParameters` | client/external/websocketpp/websocketpp/http/parser.hpp:293-377 | Terminates on every input with the cursor in range; returns begin on a syntax error, keeping the parameters read before it |
| `HttpPrinting.StringReplaceAll` | client/external/websocketpp/websocketpp/impl/utilities_impl.hpp:73-82 | Terminates for every non-empty search string and replaces the occurrences found from left to right, each after the one before |
| `HttpPrinting.EmptySearchNeverEnds` | client/external/websocketpp/websocketpp/impl/utilities_impl.hpp:73-82 | With an empty search string the loop never ends: after any number of rounds the whole subject is still ahead and the string is found again |
| `HttpPrinting.FirstOccurrenceReplaced` | client/external/websocketpp/websocketpp/impl/utilities_impl.hpp:73-82 | The first occurrence of a non-empty search string is replaced, what stands before it is kept, and the replacement carries on after it |
| `HttpPrinting.NothingReplaced` | client/external/websocketpp/websocketpp/impl/utilities_impl.hpp:73-82 | A subject in which the search string does not occur is left as it is |
| `HttpPrinting.QuotedRoundTrip` | client/external/websocketpp/websocketpp/http/parser.hpp:92-127 | For every string and every text that follows, escaping the quotes, quoting and parsing gives the string back with the cursor after the closing quote if and only if the string does not end in a backslash |
| `HttpPrinting.AttributeReadsBack` | client/external/websocketpp/websocketpp/http/parser.hpp:221-272 | An attribute printed with any linear whitespace around its parts is read as meant |
| `HttpPrinting.AttributeListReadsBack` | client/external/websocketpp/websocketpp/http/parser.hpp:195-276 | A printed attribute list parses to its meaning, a later attribute overriding an earlier one of the same name, and stops at the text after it |
| `HttpPrinting.ParametersRoundTrip` | client/external/websocketpp/websocketpp/http/parser.hpp:293-377 | The text of any parameter list, with whitespace wherever the grammar of sections 2.2 and 3.6 of RFC 2616 allows it, parses to exactly that list and stops where the list ends |
| `HttpPrinting.PrintedInFront` | client/external/websocketpp/websocketpp/http/parser.hpp:293-377 | What the round trip calls the text of a list in front of other text is that text followed by the other |
| `HttpGrammar.LwsSkipped` | client/external/websocketpp/websocketpp/http/parser.hpp:139-177 | Skipping leaves out linear whitespace only, and all of it |
| `HttpGrammar.QuotedIsPrinted` | client/external/websocketpp/websocketpp/http/parser.hpp:92-127 | A quoted string that is read is the escaped text between quotes, and its value does not end in a backslash |
| `HttpGrammar.AttributesArePrinted` | client/external/websocketpp/websocketpp/http/parser.hpp:195-276 | Whenever an attribute list is read successfully, the text read is the text of a list that means what was read, or whitespace only |
| `HttpGrammar.ParametersArePrinted` | client/external/websocketpp/websocketpp/http/parser.hpp:293-377 | Whenever a parameter list is read successfully, the text read is the text of a list that means what was read, except that at the end of the text a comma or a semicolon may stand before whitespace |
| `HttpGrammar.AttributeErrorKeeps` | client/external/websocketpp/websocketpp/http/parser.hpp:195-276 | An attribute list whose last semicolon is followed by something other than a token fails and keeps the attributes before it |
| `HttpGrammar.ParameterErrorKeeps` | client/external/websocketpp/websocketpp/http/parser.hpp:293-377 | A parameter list whose last comma is followed by something other than a token fails and keeps the parameters before it |
| `HttpGrammar.AttributeErrorLoses` | client/external/websocketpp/websocketpp/http/parser.hpp:293-377 | A syntax error in the attributes of a parameter loses that parameter and none before it |
| `Base64.ValueOfChar` | client/external/websocketpp/websocketpp/base64/base64.hpp:43-58 | `is_base64` holds of every table character, and each has one place in the table |
| `Base64.CharOfValue` | client/external/websocketpp/websocketpp/base64/base64.hpp:43-58 | Every character `is_base64` accepts is in the table |
| `Base64.Find` | client/external/websocketpp/websocketpp/base64/base64.hpp:143-143 | The place of a character in the table, or 0xFF if it has none |
| `Base64.EncodeBytes` | client/external/websocketpp/websocketpp/base64/base64.hpp:66-112 | The loop with its two scratch arrays computes the encoding of section 4 of RFC 4648 |
| `Base64.DecodeString` | client/external/websocketpp/websocketpp/base64/base64.hpp:131-174 | The loop decodes the leading alphabet characters group by group; the 0xFF fillers of the last group do not reach the result |
| `Base64.EncodeShape` | client/external/websocketpp/websocketpp/base64/base64.hpp:90-109 | Alphabet characters, then one pad character for each byte missing from the last group |
| `Base64.EncodeLength` | client/external/websocketpp/websocketpp/base64/base64.hpp:66-112 | The length is 4 * ceil(n / 3) |
| `Base64.EncodeAt` | client/external/websocketpp/websocketpp/base64/base64.hpp:66-112 | Character i stands for bits 6i to 6i + 5 of the input, as long as there are any, and is padding after that |
| `Base64.DecodeAt` | client/external/websocketpp/websocketpp/base64/base64.hpp:131-174 | A text whose first k characters are digits decodes to 6k / 8 bytes, byte j being bits 8j to 8j + 7 of the digits |
| `Base64.RoundTrip` | client/external/websocketpp/websocketpp/base64/base64.hpp:131-174 | Decoding the encoding of any byte string gives it back |
| `Base64.ReencodesExactly` | client/external/websocketpp/websocketpp/base64/base64.hpp:131-174 | Encoding what a text decodes to gives the text back if and only if it consists of whole groups with correct padding and zero unused bits |
| `Uri.Uri.constructor` | client/external/websocketpp/websocketpp/uri.hpp:51-168 | The object is valid exactly when the text follows the grammar with a usable port, and then holds its parts |
| `Uri.DefaultPorts` | client/external/websocketpp/websocketpp/uri.hpp:45-168 | For every plain host and every resource starting with a slash, a text without a port has port 80 for ws and http and port 443 for wss and https, and that host, resource and secure flag |
| `Uri.EmptyResource` | client/external/websocketpp/websocketpp/uri.hpp:51-168 | A text without a resource has the resource `/` |
| `Uri.PortShown` | client/external/websocketpp/websocketpp/uri.hpp:274-285 | `str()` leaves the port out if and only if it is 80 on a plain scheme or 443 on a secure one, and otherwise prints its digits |
| `Uri.AtoiReads` | client/external/websocketpp/websocketpp/uri.hpp:321-341 | White space, a sign, the digits of a number and anything else are read as that number with its sign |
| `Uri.LiteralReads` | client/external/websocketpp/websocketpp/uri.hpp:51-168 | A host in brackets is read up to the first closing one without its brackets, and nothing, a slash or a colon has to follow |
| `Uri.PortReads` | client/external/websocketpp/websocketpp/uri.hpp:321-341 | Every port from 1 to 65535 reads back from its digits |
| `Uri.RoundTrip` | client/external/websocketpp/websocketpp/uri.hpp:274-285 | Parsing `str()` gives back the same URI if and only if the scheme is ws, wss, http or https and agrees with the secure flag, the port is 1 to 65535, the resource starts with a slash, and the host has neither colon nor slash and does not start with a bracket |
| `Uri.ParsedRoundTrip` | client/external/websocketpp/websocketpp/uri.hpp:51-168 | Whatever was parsed survives printing and parsing again if and only if its host is not a literal that needs its brackets |
| `Uri.ParseText` | client/external/websocketpp/websocketpp/uri.hpp:274-285 | Constructing a URI object from the text of another makes an equal, valid one under the same condition |
| `Matchmaking.WSServer.GenerateRoom` | server/server.js:132-157 | Marks both clients as playing, adds one room of their ids with a fresh clock reading, and sends that room once on the socket of each |
| `Matchmaking.WSServer.ConfirmRoom` | server/server.js:159-173 | Every client that is not playing is joined with the next one, whatever that one is doing; the search loop before it has no effect |
| `Matchmaking.WSServer.OnConnection` | server/server.js:97-102 | Adds the client with a clock reading as id, tells it its id, and looks for rooms |
| `Matchmaking.WSServer.OnMessage` | server/server.js:116-130 | Forwards an update once for every room with the named id, to the first client with the id of the other side; throws exactly if there is no such client |
| `Pairing.AlwaysPaired` | server/server.js:159-184 | After every sequence of connections and messages n clients make n / 2 rooms, room k joins clients 2k and 2k + 1, everyone plays but the last of an odd number, and ids and room ids are known readings of the clock |
| `Pairing.EveryoneIsTold` | server/server.js:97-157 | In every run, forwarded updates aside, what is sent is for each client its own id on its own socket and for each room k that room on the sockets of clients 2k and 2k + 1, right after the id of the second, and nothing else |
| `Pairing.InOneRoom` | server/server.js:159-173 | With distinct ids a client belongs to exactly the room of its pair, and only the last client can be unpaired |
| `Pairing.UpdateReachesPartner` | server/server.js:116-130 | An update from a member is sent to the other member and nobody else if and only if no other room has the same id and no earlier client has the id of the other member |
| `Pairing.UpdateIsForwardedOnce` | server/server.js:116-130 | With distinct client ids and room ids, an update from a member is forwarded exactly once, on the socket of the other member, and changes nothing else |
| `Pairing.NamedRoomIsServed` | server/server.js:116-130 | With distinct ids, an update that names a room goes once to its right member if it names the left one as sender, and otherwise to the left one |
| `Pairing.OnlyUpdatesAreForwarded` | server/server.js:116-130 | A message that is no update, or names no room, changes nothing |
| `Pairing.UpdatesReachPartners` | server/server.js:116-130 | With a clock that ticks between readings, in every run, the update of every paired client is forwarded exactly once, to its partner |
| `Pairing.NeverThrows` | server/server.js:116-130 | In every reachable state, whatever a message says, the lookup of the recipient succeeds |
| `Pairing.SharedRoomId` | server/server.js:69-71 | A clock that ticks too slowly gives two rooms one id, and an update is then also sent to a stranger |
| `Movement.World.Move` | client/src/game.cpp:698-730 | Moves the character where the early-exit loop over the obstacles says, and changes nothing else |
| `Movement.IntersectsAtAPoint` | client/src/game.cpp:712-728 | Two rectangles intersect if and only if some point lies strictly inside both, whatever the signs of their sides |
| `Movement.MoveFollowsRule` | client/src/game.cpp:698-730 | The loop computes the per-axis rule if and only if a velocity component is zero or no obstacle over the starting place is visited between the obstacle that blocks one axis and the one that would block the other |
| `Movement.ClearStartFollowsRule` | client/src/game.cpp:712-728 | A character that starts clear of all obstacles always moves by the rule |
| `Movement.EndsClear` | client/src/game.cpp:698-730 | From a clear start a move ends clear if and only if a component is zero, an axis is blocked, or no obstacle meets the rectangle moved along both axes |
| `Movement.CountsEachAxisOnce` | client/src/game.cpp:712-728 | From a clear start `checked` counts each blocked axis exactly once |
| `Movement.CornerIsNotSeen` | client/src/game.cpp:698-730 | A diagonal move past a corner ends inside the obstacle |
| `Movement.WallIsNotSeen` | client/src/game.cpp:724-727 | From inside an obstacle the loop can stop before it sees the wall, and the blocked axis moves |

## Left out

- Threads and locks: handlers are atomic steps, so races between the state check and the queue push are not modelled.
- The protocol processors other than hybi00: what they make of the bytes of a read, and whether they grant a prepared message, are inputs of the events.
- Deferred HTTP responses that are sent later, and user code that calls `terminate` itself anywhere but in an HTTP handler.
- Pausing and resuming reads, the pong timer, interrupts, and cancelling the handshake timers: both handshake timers may fire or end in an error at any time once set. A timeout of zero, which sets no timer, leaves what a timer that ended in an error leaves.
- Close codes and reasons as the connection stores them, the error messages and the logs.
- A message the user prepared is taken to be a data frame.
- `m_send_buffer_size` is an integer: the wrap-around of the counter of queued bytes is not modelled.
- The 64 rounds of `md5_process`, `md5_hash_hex`, and the wrap-around of the buffer offset plus the number of bytes near 2^64.
- Bit operators are written arithmetically (division, remainder and sums over bits or digits); frame headers are values rather than structs written in place.
- The maximum header length checked by the hybi13 reader, SHA-1, the HTTP request and response parsers and permessage-deflate.
- Uri: `atoi` of a number outside the range of `int` is undefined in C and is taken here as the number itself modulo 2^32.
- HttpParser: text is a sequence of characters, one for each byte.
- The other constructors of the URI class and `strip_lws`, which only add easy members.
- JSON parsing, sockets and closing connections in the server: the fields of a message are given, and sockets are names.
- Floating-point rounding in the movement: coordinates are reals. A sprite's position is the upper left corner of its bounds.
- Drawing, animation, menus, map loading, weapons and the client's threads.
