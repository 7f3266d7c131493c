# Verified model of the openALE core

A Dafny model of the parts of openALE whose correctness is hardest to see: the ALE word's error
correction, the rational resampler, the WebSocket and rigctld servers, the JSON codec, and the audio
rings and handshake around them. `dafny verify dfyconfig.toml` checks everything.

Code that changes state in the repository is a class or a method with the same loops here, proved
against a function; what the repository promises is proved about that function. Code that only
computes is a function.

- **Error correction** (`BitWords`, `LinearMap`, `GolayMatrix`, `Golay`, `GolayRuns`, `SyndromeTable`,
  `WordCodec`, `SymbolCodec`, `AleChannel`, `AleLimits`). Words are bit sequences, least significant bit first. The minimum
  distance of the Golay code is derived from its generator by a general lemma on invertible linear
  maps, so that only sums of up to three rows are ever enumerated. On it rest the syndrome table,
  nearest-codeword decoding, and what the whole chain promises about wrong symbols and bursts. How many
  wrong symbols can pass a wrong word depends on how scattered codewords are, which follows from the
  code's being cyclic.
- **Resampler** (`Division`, `ResamplerSpec`, `Resampler`). `Ratio.Stream` is the output for a whole
  input stream; the class keeps it across calls, and `Ratio.Direct` is the textbook form it equals.
- **WebSocket server** (`WsFrames`, `WsExamples`, `WsSession`, `WsDelivery`, `WsStreams`, `WsSockets`,
  `WsDoor`, `WsInbox`, `WsOutbox`, `WsPeer`, `WsServer`). Frames and their printer, the incremental parser as a session state, what whole
  streams deliver, the poll loop as a machine over socket handles whose system calls are recorded, whom it
  lets in, what it hears over a run, where outgoing messages end up, and what a peer reads. Sending is two steps, as the check for a client
  and the queue are not guarded together. `IoThreadMain` runs it from start to clean-up.
- **rigctld server** (`LineSplit`, `SocketTrace`, `Rigctld`, `RigctldRuns`, `RigctldDelivery`,
  `RigctldServer`). Both threads as atomic steps, in any interleaving. The socket calls are recorded
  with their handles, which the kernel may hand out again once closed; a connection is the position of
  the call that accepted it, and every theorem about it is read off that record.
- **JSON** (`JsonValue`, `JsonNumber`, `JsonDecimal`, `JsonGrammar`, `JsonRoundTrip`, `JsonReading`,
  `JsonParser`). `JsonGrammar`
  says what any text parses to, failures included; the parser class follows it step for step.
- **Audio** (`SpeakerRing`, `SpeakerTaps`, `MicChunks`, `MicRing`). The speaker's jitter buffer, the
  capture side, and the lock-free ring between main loop and audio thread, each access a step of its own.
- **Handshake** (`Sha1`, `Base64`, `Handshake`, `HandshakeExamples`).

`Basics`, `Sockets`, `ByteOrder`, `Division` and `RealArithmetic` are shared.

## Where documentation and code differ

The model follows the code.

- include/FEC/ale_fec_codec.h (lines 29-34, 47, 79) and include/FEC/word_interleaver.h (lines 10, 14, 32,
  45) say that coder B's check bits are kept natural and inverted by the interleaver. The code inverts
  them in `encode_word` (src/FEC/ale_fec_codec.cpp:29), places and extracts them as they are, and undoes
  the inversion in `deinterleave_word`.
- include/FEC/word_interleaver.h:15 calls the two directions exact inverses. They are but for the stuff
  bit, as `WordCodec.InterleaverInverse` states.

## Where the code falls short, and exactly when

- The replies to a rigctld connection reach it whole if and only if each met it open and its socket
  took every byte (`RigctldDelivery.BytesAreReplies`, `ReplyCanBeLost`).
- Lines received by rigctld are lost if and only if the chunk that overran the 64 KiB buffer held a line
  feed (`RigctldDelivery.EveryLineIsServed`, `CapCanCostLines`).
- A WebSocket message reaches another client than the one its thread found if and only if that one's
  session ended before the first drain after the message was queued
  (`WsOutbox.EveryMessageIsAccountedFor`, `MessagesCross`, `MessagesOvertake`).
- A mode that corrects n bit errors can take a word for another if and only if 12 - 2n symbols or more are
  wrong (`AleChannel.NeverFooled`, `AleLimits.FooledBeyond`).
- What lies past the newest speaker sample is heard if and only if some output is not settled
  (`SpeakerTaps.BlockIsDetermined`, `OneSampleIsNotEnough`).
- The resampler's inner loop ends if and only if the input rate is positive (`ResamplerSpec.Ratio.LoopEnds`).
- Averaged runs are empty for some output if and only if the ratio is below 1 (`MicChunks.RunsAreFilled`).

## Model

| member | source | states |
|---|---|---|
| `GolayMatrix.RowsFromGenerator` | include/FEC/golay.h:50-53 | the twelve parity rows are the systematic code of 0xAE3: starting from that polynomial, each row is the one below multiplied by x and reduced, extended by the bit that makes its weight odd |
| `GolayMatrix.RowsAreOrthogonal` | src/FEC/golay.cpp:28-31 | different parity rows overlap in an even number of places and each has odd weight: the parity matrix is orthogonal |
| `GolayMatrix.TransposeInverts` | src/FEC/golay.cpp:28-31 | the parity map is invertible, its transpose undoing it |
| `GolayMatrix.MatrixIsLight` | src/FEC/golay.cpp:28-31 | sums of one, two or three rows keep weight at least 7, 6, 5: the finite facts the distance proof needs |
| `GolayMatrix.TransposeIsLight` | src/FEC/golay.cpp:28-31 | the same for the columns |
| `GolayMatrix.MatrixIsLoose` | src/FEC/golay.cpp:28-31 | sums of one, two or three rows leave at least 3, 2, 1 bits clear |
| `LinearMap.Heavy` | include/FEC/golay.h:26-27 | for any invertible bit map whose light inputs, and those of its inverse, have heavy images: input and image together weigh at least 8 |
| `Golay.EncodeXor` | src/FEC/golay.cpp:547-555 | the encoder is linear |
| `Golay.MinimumWeight` | include/FEC/golay.h:26-27 | every nonzero codeword has weight at least 8 |
| `Golay.MinimumDistance` | include/FEC/golay.h:26-27 | codewords of different information words are at least 8 bits apart |
| `Golay.SameSyndrome` | src/FEC/golay.cpp:567-577 | received word and pattern share a syndrome exactly when removing the pattern leaves a codeword |
| `Golay.LightSyndrome` | src/FEC/golay.cpp:567-577 | no pattern of fewer than 8 errors has syndrome zero, the empty one apart |
| `Golay.SyndromeSeparates` | src/FEC/golay.cpp:567-577 | patterns of joint weight under 8 never share a syndrome |
| `Golay.FewErrors` | src/FEC/golay.cpp:579-621 | with at most three errors the decoder reports OK, the corrected word and their number, or detection, as the mode says |
| `Golay.ReportedDistance` | src/FEC/golay.cpp:579-621 | for every input: the codeword of the reported word lies exactly at the reported distance |
| `Golay.DecodesNearest` | src/FEC/golay.cpp:579-621 | if and only if: OK with a word means its codeword was received; corrected to a word means its codeword is 1 to n bits away, n the mode |
| `Golay.DetectsRest` | include/FEC/golay.h:29-34 | every error of weight n+1 to 7-n is detected, and the information field handed on unchanged |
| `BitWords.PriceXor` | include/FEC/golay.h:26-27 | counting one for each set bit and one for each run of them, a flipped bit changes the price of a pattern by at most two |
| `GolayRuns.RotatedIsCodeword` | include/FEC/golay.h:50-53 | the code is cyclic above its lowest bit: rotating bits 1 to 23 of a codeword gives a codeword |
| `GolayRuns.CodewordPrice` | include/FEC/golay.h:26-27 | every nonzero codeword has at least four separate runs of set bits if its weight is 8: its price is 12 or more |
| `GolayRuns.NeverFooled` | src/FEC/golay.cpp:579-621 | a mode correcting n errors takes a received word for another codeword's only if the errors have price 12 - 2n or more, however they lie |
| `SyndromeTable.SlotIsFree` | src/FEC/golay.cpp:638-672 | a pattern of weight at most three not recorded yet always finds its slot at the sentinel: no two collide |
| `SyndromeTable.Record` | src/FEC/golay.cpp:639-646 | the guarded write records one more pattern and disturbs none |
| `SyndromeTable.FillSingles` | src/FEC/golay.cpp:638-646 | after the first loop exactly the empty and the single-bit patterns are recorded |
| `SyndromeTable.FillPairs` | src/FEC/golay.cpp:648-658 | after the second loop also all pairs |
| `SyndromeTable.FillTriples` | src/FEC/golay.cpp:660-672 | after the third loop also all triples |
| `SyndromeTable.InitSyndromeTable` | src/FEC/golay.cpp:631-674 | afterwards every slot holds the one pattern of weight at most three with that syndrome, or none if there is none; 2325 are filled |
| `WordCodec.Interleave` | src/FEC/word_interleaver.cpp:27-46 | the two loops build the interleaved word |
| `WordCodec.Deinterleave` | src/FEC/word_interleaver.cpp:48-72 | the two loops extract both channels |
| `WordCodec.InterleaverInverse` | src/FEC/word_interleaver.cpp:27-72 | inverse in both directions, except that the stuff bit comes back clear |
| `WordCodec.CoderBIsInverted` | src/FEC/ale_fec_codec.cpp:14-31 | what coder B sends differs from its codeword in all twelve check bits and in no information bit; what coder A sends is its codeword |
| `WordCodec.CheckBitsAreFar` | src/FEC/ale_fec_codec.cpp:14-19 | the inverted check bits are at least 4 bits from every codeword |
| `WordCodec.CodersStayApart` | src/FEC/ale_fec_codec.cpp:14-31 | so what either coder sends is refused, in every mode, where the other's word is expected: what the inversion is for |
| `WordCodec.FlipKeepsDistance` | src/FEC/ale_fec_codec.cpp:14-19 | inverting check bits is its own inverse and keeps distances |
| `WordCodec.WordCorrected` | src/FEC/ale_fec_codec.cpp:21-75 | as long as neither half suffers more errors than the mode corrects the word comes back with the total error count |
| `WordCodec.HalvesStandAlone` | src/FEC/ale_fec_codec.cpp:50-75 | each half is what its own errors make of it: corrected within the mode's power, handed on as received up to what it detects, whatever becomes of the other |
| `WordCodec.WordNeverWrong` | src/FEC/ale_fec_codec.cpp:50-75 | as long as neither half suffers more errors than the mode detects no wrong word is reported as good |
| `SymbolCodec.EncodeTx49` | src/Codec/ale_encoder.cpp:9-32 | the nested loops compute the 49 symbols |
| `SymbolCodec.SymbolsAreDigits` | src/Codec/ale_encoder.cpp:9-32 | the symbols are the octal digits of the word sent three times over, the first bit of each symbol its most significant |
| `SymbolCodec.StreamRepeats` | src/Codec/ale_encoder.cpp:13-20 | read back bit by bit, the symbols are three copies of the word end to end |
| `SymbolCodec.Vote` | src/Codec/ale_decoder.cpp:29-46 | the nested loops compute the majority word and count the unanimous votes |
| `SymbolCodec.CleanVote` | src/Codec/ale_decoder.cpp:29-46 | an undisturbed frame votes to the word sent, with 48 unanimous votes |
| `SymbolCodec.UnanimousIs` | src/Codec/ale_decoder.cpp:39-40 | a vote is unanimous exactly where the three copies agree |
| `SymbolCodec.VotesLost` | src/Codec/ale_decoder.cpp:29-46 | each wrong symbol costs at most three unanimous votes |
| `SymbolCodec.MisreadNeedsTwo` | src/Codec/ale_decoder.cpp:33-42 | a misread bit has two of its three carriers among the wrong symbols |
| `SymbolCodec.CarriersOverlapOnce` | src/Codec/ale_encoder.cpp:16-20 | only one copy of a bit can share its symbol with a later bit of the same channel |
| `SymbolCodec.MisreadsCost` | src/Codec/ale_decoder.cpp:31-42 | each run of k neighbouring misread bits of one channel needs k+1 wrong symbols of its own |
| `AleChannel.MisreadPrice` | src/Codec/ale_decoder.cpp:10-52 | the price of the misread bits of either Golay half, one for each and one for each run, is at most the number of wrong symbols |
| `AleChannel.MisreadBound` | src/Codec/ale_decoder.cpp:10-52 | so n wrong symbols spoil at most n-1 bits of either half |
| `AleChannel.CorrectsSymbols` | src/Codec/ale_decoder.cpp:10-57 | a mode correcting n errors carries any word through any n+1 arbitrary wrong symbols (four in the default mode) |
| `AleChannel.NeverFooled` | src/Codec/ale_decoder.cpp:10-57 | with up to 11-2n wrong symbols (11, 9, 7 or 5 as the mode goes) no wrong word is accepted |
| `AleChannel.BurstBound` | src/Codec/ale_decoder.cpp:10-52 | a burst of 16, 17 or 18 consecutive symbols spoils at most 0, 1 or 3 bits of either half |
| `AleChannel.CorrectsBursts` | src/Codec/ale_decoder.cpp:10-57 | every burst of up to 16, 17, 17 or 18 consecutive symbols, as the mode goes, is corrected; 16 by voting alone |
| `AleChannel.BurstBoundIsTight` | src/Codec/ale_decoder.cpp:10-57 | for every word and mode, a burst one symbol longer (17, 18 or 19 as the mode goes) from the first symbol on is refused: burst lengths cannot be raised either |
| `AleChannel.BoundIsTight` | src/Codec/ale_decoder.cpp:10-57 | for every word and mode some n+2 wrong symbols are refused, so the bound cannot be raised |
| `AleLimits.FooledBeyond` | src/Codec/ale_decoder.cpp:10-57 | that bound is exact: for every word and mode some 12-2n wrong symbols have another word accepted as good |
| `Resampler.Gcd` | include/App/resampler.h:87-90 | the loop's result is divided by exactly the common divisors of its inputs |
| `Resampler.Reduce` | include/App/resampler.h:30-35 | L and M are in the ratio of the rates, coprime if both rates are positive, and each zero exactly if its rate is; both are 1 exactly for equal rates |
| `Resampler.ReducedIsCoprime` | include/App/resampler.h:31-33 | dividing by the greatest common divisor leaves coprime numbers |
| `Resampler.TapCount` | include/App/resampler.h:103-108 | the prototype has a positive, whole number of taps per phase |
| `Resampler.TapCountIsLargest` | include/App/resampler.h:96-108 | it is the largest whole number of taps per phase within 16 of each phase at the higher rate and 8192 in all, or one tap each |
| `Resampler.SplitPrototype` | include/App/resampler.h:134-142 | every phase-major cell holds the prototype tap p + jL |
| `ResamplerSpec.Ratio.TapsArePartitioned` | include/App/resampler.h:134-142 | p + jL is a bijection between phase and tap and the indices below KL |
| `ResamplerSpec.Ratio.PolyphaseIsDirect` | include/App/resampler.h:60-82 | every output equals zero-stuffing by L, convolving with the full prototype, keeping every M-th sample and scaling by L |
| `ResamplerSpec.Ratio.OutputIsNearest` | include/App/resampler.h:76-80 | an output is the sample nearest to L times the convolution, of two equally near the one away from zero, and beyond 16 bits the limit on that side |
| `ResamplerSpec.Ratio.ConstantPasses` | include/App/resampler.h:130-132 | unity gain: where the taps of a phase add up to 1/L, an output whose K inputs are all c is c |
| `ResamplerSpec.Ratio.DueWhenArrived` | include/App/resampler.h:58-63 | after n inputs output m is due (m below nL/M rounded up) if and only if its newest input has arrived |
| `ResamplerSpec.Ratio.LoopEnds` | include/App/resampler.h:60-63 | the loop over outputs meets its break test if and only if M is positive: at an input rate of 0 it never ends |
| `ResamplerSpec.Ratio.StreamExtends` | include/App/resampler.h:48-84 | later input never changes output already emitted |
| `Resampler.RingPush` | include/App/resampler.h:54-56 | overwriting the oldest slot keeps the newest samples each at its count modulo the size |
| `Resampler.TermFromRing` | include/App/resampler.h:69-74 | each ring read yields the sample of that absolute index |
| `Resampler.Resampler.constructor` | include/App/resampler.h:30-43 | fresh state with the reduced ratio, the split prototype and a ring of K + M + 8, ready to process exactly if the input rate is positive |
| `Resampler.Resampler.Filter` | include/App/resampler.h:65-80 | the inner loop, early stop at the stream's start included, computes the output the specification names |
| `Resampler.Resampler.Push` | include/App/resampler.h:53-83 | one input: the inner loop ends and emits exactly the outputs that became due |
| `Resampler.Resampler.Process` | include/App/resampler.h:48-84 | what a call returns is exactly what its block adds to the output of the whole stream, so any splitting into calls gives the same output |
| `WsFrames.MaskInvolution` | apps/bridge/ws_server.cpp:671-676 | masking twice with one key restores the payload |
| `ByteOrder.BigEndianRoundTrip` | apps/bridge/ws_server.cpp:653-663 | length bytes read back as the number printed |
| `WsFrames.NextExtends` | apps/bridge/ws_server.cpp:644-668 | more bytes never change a verdict or frame already decided |
| `WsFrames.PushLength` | apps/bridge/ws_server.cpp:249-259 | the branches print the shortest of the three length forms |
| `WsFrames.SendFrame` | apps/bridge/ws_server.cpp:246-262 | the printed frame is the section 5.2 layout, final and unmasked |
| `WsFrames.PrintedIsRead` | apps/bridge/ws_server.cpp:643-677 | any frame up to 16 MiB, masked with any key or not, in any length form, is read back exactly, whatever follows it |
| `WsExamples.UnmaskedText` | apps/bridge/ws_server.cpp:246-262 | the unmasked examples of section 5.7 of RFC 6455, byte for byte, in one frame and in two |
| `WsExamples.MaskedText` | apps/bridge/ws_server.cpp:643-677 | its masked example, printed and read |
| `WsExamples.PingAndPong` | apps/bridge/ws_server.cpp:716-719 | its ping and pong |
| `WsExamples.Closing` | apps/bridge/ws_server.cpp:712-714 | a close without a body is 88 00 |
| `WsExamples.LongBinary` | apps/bridge/ws_server.cpp:249-259 | its frames of 256 bytes and of 64 KiB |
| `WsExamples.OversizeIsRefused` | apps/bridge/ws_server.cpp:644-668 | a frame is refused exactly when its length is known to be over 16 MiB |
| `WsSession.ReadFront` | apps/bridge/ws_server.cpp:644-677 | the branches on length form, size cap, mask and completeness decide as the reader function does |
| `WsSession.Session.ParseFrames` | apps/bridge/ws_server.cpp:639-726 | the parse loop reaches the specified state and verdict and ends |
| `WsSession.Session.Dispatch` | apps/bridge/ws_server.cpp:679-723 | the effect of each opcode on accumulator, queues and wire |
| `WsSession.Session.Receive` | apps/bridge/ws_server.cpp:565-577 | append and parse |
| `WsDelivery.DrainExtends` | apps/bridge/ws_server.cpp:639-726 | parsing, then more bytes and parsing again, equals parsing all at once |
| `WsDelivery.ChunkingIsInvisible` | apps/bridge/ws_server.cpp:565-577 | chunk by chunk gives the queues, replies, parser state and verdict of the whole stream at once |
| `WsDelivery.AnyTwoCuttings` | apps/bridge/ws_server.cpp:565-577 | any two ways of cutting one stream are indistinguishable, but for unread bytes behind a hang-up |
| `WsDelivery.ContinuationsDeliver` | apps/bridge/ws_server.cpp:680-693 | continuations accumulate and the last one delivers, controls in between echoed |
| `WsDelivery.MessageIsDelivered` | apps/bridge/ws_server.cpp:679-723 | in any session, whatever it has seen: a message in any number of fragments with any pings, pongs and unassigned opcodes between is delivered once, whole, on its own queue, one pong per ping in order |
| `WsDelivery.StrayContinuations` | apps/bridge/ws_server.cpp:680-693 | continuations that no data frame opened deliver and send nothing |
| `WsDelivery.FramesAreRead` | apps/bridge/ws_server.cpp:643-677 | any list of printed frames is read back one by one with nothing left over |
| `WsDelivery.CloseIsAnswered` | apps/bridge/ws_server.cpp:712-714 | a close frame is answered by an empty one and ends the session; later bytes stay unread |
| `WsDelivery.StreamIsHandled` | apps/bridge/ws_server.cpp:565-726 | any frames but a close, masked anyhow and cut into any chunks, have the effect of handling them one by one, with nothing left in the buffer |
| `WsStreams.OpenerIs` | apps/bridge/ws_server.cpp:680-703 | the message under way is the last opening frame behind which no other opens or finishes one |
| `WsStreams.FramesDeliver` | apps/bridge/ws_server.cpp:565-726 | end to end for any list of frames but a close - abandoned and interleaved messages, stray continuations, unassigned opcodes - in any cutting: each queue gets exactly the messages completed, in order, and the peer one pong per ping |
| `WsStreams.ItemsAreTaken` | apps/bridge/ws_server.cpp:679-723 | messages, abandoned messages, control frames and stray continuations in any order each do what they should, from any session |
| `WsStreams.StreamIsDelivered` | apps/bridge/ws_server.cpp:565-726 | end to end from any session with an empty buffer: such a stream, masked and cut into chunks anyhow, delivers its messages whole, in order and once, and nothing else |
| `WsInbox.ParseMore` | apps/bridge/ws_server.cpp:639-726 | the frames a stream begins with, whatever its bytes: more bytes only add to them |
| `WsInbox.ParseOnWire` | apps/bridge/ws_server.cpp:643-677 | printed frames, masked or not, are the frames of their bytes |
| `WsInbox.DrainParses` | apps/bridge/ws_server.cpp:639-726 | the parse loop handles just the frames its buffer begins with and leaves the rest |
| `WsInbox.EverySessionIsHeard` | apps/bridge/ws_server.cpp:349-609 | over any run, other threads sending and the queue drained in between: the messages queued are, session by session and in order, just those completed in the bytes each session received |
| `WsInbox.FramesAreHeard` | apps/bridge/ws_server.cpp:565-577 | a session that received printed frames adds exactly their messages |
| `WsInbox.ObservedRun` | apps/bridge/ws_server.cpp:349-609 | recording the bytes received leaves the run unchanged |
| `WsSockets.StepOwns` | apps/bridge/ws_server.cpp:389-608 | every step of any thread keeps each open handle in exactly one place: a slot, the client or the listener |
| `WsSockets.RunOwns` | apps/bridge/ws_server.cpp:349-609 | so does every run |
| `WsSockets.ShutdownClosesAll` | apps/bridge/ws_server.cpp:611-631 | the clean-up only closes open sockets and leaves none open |
| `WsSockets.ClosedAsOftenAsOpened` | apps/bridge/ws_server.cpp:389-631 | in a legal history every handle was closed as often as opened, unless open now |
| `WsSockets.RunClosesEverySocketOnce` | apps/bridge/ws_server.cpp:349-631 | over any interleaving followed by the clean-up every accepted socket is closed exactly once per accept |
| `WsSockets.QueueKeepsNewest` | apps/bridge/ws_server.cpp:750-754 | however many messages are queued, the newest 32 stay, whoever is connected |
| `WsDoor.HeadIsFound` | apps/bridge/ws_server.cpp:485-486 | the end of a request head is found exactly when CR LF CR LF stand somewhere |
| `WsDoor.RequestDecides` | apps/bridge/ws_server.cpp:470-558 | a chunk on a pending connection makes it the client exactly if its request is complete, at most 64 KiB, an upgrade with a key from an allowed origin, and there is no client; any other complete or oversize request closes it in the same step, client and session unchanged; an incomplete one waits |
| `WsDoor.RoomDecides` | apps/bridge/ws_server.cpp:397-419 | a new connection waits in the first free slot, or is closed at once exactly if none is |
| `WsDoor.SilenceDecides` | apps/bridge/ws_server.cpp:423-470 | a hang-up, an error or a failed receive closes a pending connection at once |
| `WsDoor.SessionEnds` | apps/bridge/ws_server.cpp:560-591 | the session ends with a hang-up, an error, a failed receive, a close or a frame too large: handle closed, unread and unfinished bytes forgotten, queued messages kept |
| `WsDoor.ClientWasAdmitted` | apps/bridge/ws_server.cpp:349-558 | over any run: whoever is the client sent such a request between its last accept and its promotion, and nothing complete or oversize is left waiting |
| `WsDoor.ObservedRun` | apps/bridge/ws_server.cpp:349-609 | recording requests leaves the run unchanged |
| `WsOutbox.RunPosts` | apps/bridge/ws_server.cpp:579-608 | every run, any number of threads sending, keeps the account of outgoing messages: sessions found, letters, outcomes, drains, ended sessions and their wires |
| `WsOutbox.EveryMessageIsAccountedFor` | apps/bridge/ws_server.cpp:746-767 | over any run each message queued is queued still, or dropped - exactly when 32 more were queued before the next drain - or sent by that drain; it goes to another session than the one its thread found exactly when that one had ended before the drain, be it before or after the message was queued |
| `WsOutbox.WiresCarryTheMessages` | apps/bridge/ws_server.cpp:593-608 | over any run the messages on each session's wire are those that went to it, in order |
| `WsOutbox.MessagesCross` | apps/bridge/ws_server.cpp:746-767 | a run that shows it: a upgrades, a message is queued, a hangs up, b upgrades, and the drain writes the message to b |
| `WsOutbox.MessagesOvertake` | apps/bridge/ws_server.cpp:746-754 | another: the thread finds a, a hangs up, b upgrades, the empty queue is drained, and only then is the message queued, for b |
| `WsOutbox.MessagesWaitForAnybody` | apps/bridge/ws_server.cpp:746-754 | a message can be queued while nobody is connected |
| `WsOutbox.ObservedRun` | apps/bridge/ws_server.cpp:349-609 | the account changes nothing: the observed run is the run |
| `WsPeer.PingIsAnswered` | apps/bridge/ws_server.cpp:716-719 | what handling a ping appends reads as a final pong with the ping's payload |
| `WsPeer.AnswersAreRead` | apps/bridge/ws_server.cpp:639-726 | the answers to any bytes read as whole frames: a pong for each ping, and a close if one was read |
| `WsPeer.LettersAreRead` | apps/bridge/ws_server.cpp:593-608 | the bytes of a drained queue read as a final frame for each message |
| `WsPeer.PeerReadsItAll` | apps/bridge/ws_server.cpp:349-609 | over any run, for every session with messages of at most 16 MiB: its wire reads as whole frames with nothing left over, just one final pong with the same payload for each ping it sent and one final frame for each message that went to it, each in order, ended by a close exactly if it sent one |
| `WsServer.WsServer.constructor` | apps/bridge/ws_server.cpp:314-317 | a server with free slots and one open listener |
| `WsServer.WsServer.AcceptConnection` | apps/bridge/ws_server.cpp:397-419 | the scan takes the first free slot or closes the socket |
| `WsServer.WsServer.DropSlot` | apps/bridge/ws_server.cpp:427-434 | close and free one slot |
| `WsServer.WsServer.ServeSlot` | apps/bridge/ws_server.cpp:423-558 | every branch: hang-up, failed receive, oversize, incomplete head, foreign origin, upgrade, second upgrade, static page |
| `WsServer.WsServer.EndClient` | apps/bridge/ws_server.cpp:579-590 | end of the session |
| `WsServer.WsServer.ServeClient` | apps/bridge/ws_server.cpp:560-591 | receive, parse and hang up on a close |
| `WsServer.WsServer.DrainSendQueue` | apps/bridge/ws_server.cpp:593-608 | all queued messages go out as frames, in order |
| `WsServer.WsServer.IsConnected` | apps/bridge/ws_server.cpp:769-771 | the check is a step of its own |
| `WsServer.WsServer.PushItem` | apps/bridge/ws_server.cpp:750-754 | the push under the queue's lock, the oldest making room, without another look at the client |
| `WsServer.WsServer.QueueMessage` | apps/bridge/ws_server.cpp:746-767 | a send is those two steps, refused if the first finds nobody |
| `WsServer.WsServer.PollOnce` | apps/bridge/ws_server.cpp:349-609 | one iteration is exactly the machine's steps for what was polled: slots and client occupied when the poll began |
| `WsServer.RoundIs` | apps/bridge/ws_server.cpp:349-609 | those steps serve each slot and the client occupied when the poll began just once, after the accept and before the drain |
| `WsServer.WsServer.CloseEverything` | apps/bridge/ws_server.cpp:611-631 | the clean-up loop |
| `WsServer.WsServer.IoThreadMain` | apps/bridge/ws_server.cpp:346-631 | after any number of rounds and the clean-up no socket is open and every close was legal |
| `LineSplit.SplitIsExact` | apps/bridge/rigctld_server.cpp:185-192 | lines with their line feeds and the tail are the stream; no line or tail holds a line feed, so the split is the only one |
| `LineSplit.LineIs` | apps/bridge/rigctld_server.cpp:188-189 | a line is served as it came, but for one carriage return at its end |
| `LineSplit.LinesMore` | apps/bridge/rigctld_server.cpp:179-192 | the lines of a stream do not depend on the chunks it came in |
| `LineSplit.TakeLines` | apps/bridge/rigctld_server.cpp:185-192 | the find-and-erase loop takes exactly those lines, one trailing carriage return off each |
| `LineSplit.ShortTail` | apps/bridge/rigctld_server.cpp:179-184 | a stream of short lines never leaves a long tail |
| `SocketTrace.UpIs` | apps/bridge/rigctld_server.cpp:141-158 | a connection is up as long as no later call closes its handle or opens it anew |
| `RigctldRuns.StepKeeps` | apps/bridge/rigctld_server.cpp:110-265 | every step of either thread keeps: fresh distinct ids, an exact client count, each slot's handle the one accepted for its id, no other handle open, every byte read accounted for, lines queued once and in order, replies written on the connection accepted for their id |
| `RigctldRuns.RunKeeps` | apps/bridge/rigctld_server.cpp:110-265 | so does every interleaving |
| `RigctldDelivery.EveryLineIsServed` | apps/bridge/rigctld_server.cpp:168-193 | over any run, for each connection: the lines of all bytes received are those taken by the main loop, those queued, and those of a chunk that met the 64 KiB guard, in order; so all are served if and only if no such chunk held a line feed |
| `RigctldDelivery.CapCanCostLines` | apps/bridge/rigctld_server.cpp:179-184 | the run that shows it: after 16 full chunks without a line feed a 17th closes the connection, and costs lines if and only if it holds a line feed |
| `RigctldDelivery.ShortLinesAreServed` | apps/bridge/rigctld_server.cpp:168-193 | over any run read in chunks of at most 4 KiB, a client with lines of at most 60 KiB never meets the guard and has every line served |
| `RigctldDelivery.RepliesReachTheirConnection` | apps/bridge/rigctld_server.cpp:214-235 | over any run, every reply written went to the handle accepted for its id, with no close and no reissue of that handle between accept and write |
| `RigctldDelivery.DroppedOnlyWhenAway` | apps/bridge/rigctld_server.cpp:214-235 | a reply is written to no socket only if its connection was not open at that moment; one closed by then stays closed |
| `RigctldDelivery.LateReplyIsDropped` | apps/bridge/rigctld_server.cpp:214-235 | the run with a handle and slot reissued: a late reply to the first client is not written to the second |
| `RigctldDelivery.BytesAreReplies` | apps/bridge/rigctld_server.cpp:208-235 | over any run, what a connection's socket was given is what it took of its own replies in order, and all of them if and only if each nonempty one met its connection open and a socket that would take no less |
| `RigctldDelivery.ReplyCanBeLost` | apps/bridge/rigctld_server.cpp:220-231 | the run that shows it: a send that fails part-way loses the rest of a reply on a connection that stays open |
| `RigctldDelivery.GoneForGood` | apps/bridge/rigctld_server.cpp:148-149 | the id of a closed connection never becomes live again |
| `RigctldDelivery.HangUpEnds` | apps/bridge/rigctld_server.cpp:165-205 | in any run a hang-up, an error or a failed receive closes the handle and frees the slot at once; lines sent before stay queued |
| `RigctldDelivery.RoomForSixteen` | apps/bridge/rigctld_server.cpp:142-158 | over any run at most 16 clients are connected, and a new one is turned away exactly if there are 16 |
| `RigctldDelivery.CleanUpClosesAll` | apps/bridge/rigctld_server.cpp:238-247 | after any run and the clean-up no client's handle is open |
| `RigctldServer.RigctldServer.AcceptConnection` | apps/bridge/rigctld_server.cpp:142-158 | first free slot, next id, count up; with none free the handle is closed |
| `RigctldServer.RigctldServer.ServiceClient` | apps/bridge/rigctld_server.cpp:162-206 | receive, cap, split, close |
| `RigctldServer.RigctldServer.TakeReplies` | apps/bridge/rigctld_server.cpp:209-213 | the swap of the send queue |
| `RigctldServer.RigctldServer.WriteReply` | apps/bridge/rigctld_server.cpp:214-235 | the scan for the live slot of that id and the partial send to its socket |
| `RigctldServer.RigctldServer.PopRequest` | apps/bridge/rigctld_server.cpp:251-258 | the oldest request, if any |
| `RigctldServer.RigctldServer.SendReply` | apps/bridge/rigctld_server.cpp:260-265 | the reply is queued last, for whatever id |
| `RigctldServer.RigctldServer.PollOnce` | apps/bridge/rigctld_server.cpp:110-236 | one iteration is exactly the machine's steps, keeps the invariant and leaves no reply unwritten |
| `RigctldServer.RoundIs` | apps/bridge/rigctld_server.cpp:110-206 | those steps serve each client connected when the poll began just once, after the accept |
| `RigctldServer.RoundReplies` | apps/bridge/rigctld_server.cpp:208-235 | and then take and write every reply queued, each once and in turn |
| `RigctldServer.RigctldServer.CloseEverything` | apps/bridge/rigctld_server.cpp:238-247 | the clean-up loop, after which no client's handle is open |
| `JsonValue.WithIsUpdate` | apps/bridge/minijson.h:49-56 | set then find behaves as a map update |
| `JsonValue.WithKeepsOrder` | apps/bridge/minijson.h:49-52 | keys keep their places and a new key goes last |
| `JsonValue.WithKeepsDistinct` | apps/bridge/minijson.h:49-52 | set never makes a key occur twice |
| `JsonValue.ObjectBuilder.Set` | apps/bridge/minijson.h:49-52 | the scan replaces the value in place or appends |
| `JsonValue.Writer.EscapeInto` | apps/bridge/minijson.h:95-115 | the loop appends the quoted string |
| `JsonValue.Writer.DumpInto` | apps/bridge/minijson.h:117-158 | printing appends the value's text |
| `JsonValue.Writer.DumpItemsInto` | apps/bridge/minijson.h:133-143 | the array loop with its first flag |
| `JsonValue.Writer.DumpMembersInto` | apps/bridge/minijson.h:144-156 | the object loop with its first flag |
| `JsonNumber.DecimalIsRead` | apps/bridge/minijson.h:123-124 | reading a printed integer gives that integer |
| `JsonDecimal.NumeralIsRead` | apps/bridge/minijson.h:291-293 | every sign, digits, fraction and exponent is read as the scaled number its digits make |
| `JsonDecimal.FractionIsRead` | apps/bridge/minijson.h:291-293 | n.f is read as a number from n to below n + 1 that ten to the length of f makes the number of its digits |
| `JsonDecimal.PowerScales` | apps/bridge/minijson.h:291-293 | an exponent k moves the value by ten to the k, to either side |
| `JsonDecimal.SignIsRead` | apps/bridge/minijson.h:291-293 | a minus sign negates, a plus sign does nothing |
| `JsonGrammar.Text.ParseValue` | apps/bridge/minijson.h:185-195 | for every text: terminates, the cursor never moves back and ends at most three past the end, the failure flag stays set |
| `JsonGrammar.Text.ParseItems` | apps/bridge/minijson.h:223-230 | the same for the array loop, on the failed path too |
| `JsonGrammar.Text.ParseMembers` | apps/bridge/minijson.h:202-214 | the same for the object loop |
| `JsonGrammar.Text.StringBody` | apps/bridge/minijson.h:234-273 | a string ends within the text, and if unclosed at its end |
| `JsonRoundTrip.HexIsRead` | apps/bridge/minijson.h:104-108 | a control character printed as four hexadecimal digits is read back |
| `JsonRoundTrip.StringIsRead` | apps/bridge/minijson.h:95-115 | any string, quotes, backslashes and control characters included, is read back from its escaped form |
| `JsonRoundTrip.NumberIsRead` | apps/bridge/minijson.h:282-297 | a printed integer is read back whole when no number character follows |
| `JsonRoundTrip.ValueIsRead` | apps/bridge/minijson.h:185-195 | a printed value standing anywhere in a text is read back with the cursor right behind it, whatever follows that does not continue a number |
| `JsonRoundTrip.RoundTrip` | apps/bridge/minijson.h:300-303 | parse(dump(v)) is v, for every value with 64-bit integer numbers and distinct keys |
| `JsonRoundTrip.DumpIsInjective` | apps/bridge/minijson.h:160-164 | different values print differently |
| `JsonRoundTrip.ValueKeysDiffer` | apps/bridge/minijson.h:197-216 | whatever the text, no parsed object has two members of the same key |
| `JsonRoundTrip.ReparseIsStable` | apps/bridge/minijson.h:300-303 | printing what any text parsed to and parsing it again changes nothing, numbers being 64-bit integers |
| `JsonReading.SpacesAreSkipped` | apps/bridge/minijson.h:183 | white space is spaces, tabs, line feeds and carriage returns, and all of it is skipped |
| `JsonReading.SpaceIsInvisible` | apps/bridge/minijson.h:185-187 | a value is the same whatever white space stands before it |
| `JsonReading.PaddedIsRead` | apps/bridge/minijson.h:171-174 | a printed value is read back from between any white space and any text that does not run on |
| `JsonReading.NumeralIsParsed` | apps/bridge/minijson.h:282-297 | a numeral anywhere in a text is the rounding of its value, or a failure out of range |
| `JsonReading.FailureSticks` | apps/bridge/minijson.h:185-187 | after a failure every further value is null |
| `JsonReading.NoValueStarts` | apps/bridge/minijson.h:282-290 | where no value can start the parse fails and the cursor stays |
| `JsonReading.MisspeltFails` | apps/bridge/minijson.h:275-280 | a word that starts like true or false and is neither fails |
| `JsonReading.EscapesAreRead` | apps/bridge/minijson.h:240-266 | what every escape but u stands for |
| `JsonReading.UnicodeIsRead` | apps/bridge/minijson.h:247-263 | u and four hexadecimal digits of either case stand for that code in Basic Latin, a question mark beyond |
| `JsonReading.ShortUnicode` | apps/bridge/minijson.h:247-263 | with fewer than four characters left the escape is passed over and what follows is read as it stands |
| `JsonParser.Parser.SkipWs` | apps/bridge/minijson.h:183 | the loop stops where the grammar says |
| `JsonParser.Parser.ParseChar` | apps/bridge/minijson.h:237-268 | one character, escape or \u escape |
| `JsonParser.Parser.ParseString` | apps/bridge/minijson.h:234-273 | string, cursor and flag as the grammar has them, no read out of range |
| `JsonParser.Parser.ParseBool` | apps/bridge/minijson.h:275-280 | true, false or failure |
| `JsonParser.Parser.ParseNumber` | apps/bridge/minijson.h:282-297 | sign, scan, conversion or failure |
| `JsonParser.Parser.ParseValue` | apps/bridge/minijson.h:185-195 | the dispatch, with "null" moving the cursor by four unread |
| `JsonParser.Parser.ParseArray` | apps/bridge/minijson.h:218-232 | the array loop |
| `JsonParser.Parser.ParseObject` | apps/bridge/minijson.h:197-216 | the object loop |
| `JsonParser.Parser.Parse` | apps/bridge/minijson.h:171-174 | the whole parse returns what the grammar gives the text |
| `SpeakerRing.PushIsNewest` | apps/gui/audio-worklets.js:45-50 | a push adds the sample to the window and drops the oldest only when full |
| `SpeakerRing.ConsumedIsBuffered` | apps/gui/audio-worklets.js:67-81 | a block never consumes more than is buffered, and something if it plays anything |
| `SpeakerRing.FillIs` | apps/gui/audio-worklets.js:67 | a block is filled exactly as far as the buffered samples last |
| `SpeakerRing.BaseIsLive` | apps/gui/audio-worklets.js:67-77 | every played sample interpolates from a position still buffered |
| `SpeakerTaps.TapsAreBuffered` | apps/gui/audio-worklets.js:67-77 | all taps of a block are buffered if and only if the last output's are |
| `SpeakerTaps.BlockIsDetermined` | apps/gui/audio-worklets.js:16-29 | a block depends on nothing but the buffered samples and the one before them if and only if each output has its taps buffered, falls on a sample, or the ring is full but for one slot |
| `SpeakerTaps.LeftoverIsHeard` | apps/gui/audio-worklets.js:67-77 | in every other case two rings with the same samples buffered play differently: what lies past the newest sample is heard |
| `SpeakerTaps.OneSampleIsNotEnough` | apps/gui/audio-worklets.js:67-77 | such a case: one sample buffered, played at twice its rate |
| `SpeakerRing.NextBlockFollows` | apps/gui/audio-worklets.js:79 | the next block starts less than one sample after the position the last one reached |
| `SpeakerRing.CubicFits` | apps/gui/audio-worklets.js:16-29 | the interpolated curve runs through the samples on either side, and keeps straight lines straight |
| `SpeakerRing.CubicIsHermite` | apps/gui/audio-worklets.js:16-29 | it is the cubic whose slope at each sample is half the difference of that sample's neighbours |
| `SpeakerRing.ClampIs` | apps/gui/audio-worklets.js:72-76 | overshoot is cut off at full scale and nothing else is changed |
| `SpeakerRing.SampleIsPlayed` | apps/gui/audio-worklets.js:72-77 | where the position falls on a buffered sample, that sample, clamped, is played |
| `SpeakerRing.SpeakerProcessor.constructor` | apps/gui/audio-worklets.js:32-39 | an empty, unmuted buffer |
| `SpeakerRing.SpeakerProcessor.OnSamples` | apps/gui/audio-worklets.js:41-50 | the buffer becomes the newest 8192 of what was buffered and pushed; read stays a whole number and write follows from it |
| `SpeakerRing.SpeakerProcessor.Play` | apps/gui/audio-worklets.js:72-78 | the two loops write the interpolated samples, then silence |
| `SpeakerRing.SpeakerProcessor.Process` | apps/gui/audio-worklets.js:57-83 | silence when muted or empty, otherwise the block; what stays buffered is still the newest part of all that was pushed |
| `MicChunks.RunsTile` | apps/gui/audio-worklets.js:94-97 | the averaged runs tile the input from its start, without overlap or gap, inside its bounds |
| `MicChunks.LeftOver` | apps/gui/audio-worklets.js:92-97 | less than a run and one sample is left at the end |
| `MicChunks.RunsAreFilled` | apps/gui/audio-worklets.js:94-98 | no output averages an empty run if and only if the ratio is at least 1 |
| `MicChunks.MeanWithin` | apps/gui/audio-worklets.js:96-98 | an average stays within the bounds of its inputs |
| `MicChunks.MeanIs` | apps/gui/audio-worklets.js:96-98 | an average of one is that one, and averages of parts combine in proportion to their sizes |
| `MicChunks.BoxDecimate` | apps/gui/audio-worklets.js:91-101 | the nested loops compute the averages |
| `MicChunks.FrameHolds` | apps/gui/audio-worklets.js:133-148 | tag byte first, and each 16-bit sample readable in its place |
| `MicChunks.PcmIsNearest` | apps/gui/audio-worklets.js:135-137 | a sample is the nearest to 32767 times the value, the upper of two equally near, and the limit beyond 16 bits |
| `MicChunks.SampleFromStretch` | apps/gui/audio-worklets.js:129-131 | each sample of a frame lies within the bounds of the device samples of its own stretch, pairs of the first pass averaged by the second |
| `MicChunks.WireRate` | apps/gui/audio-worklets.js:129-131 | and there are as many as the whole ratio makes of the chunk |
| `MicChunks.MicProcessor.Process` | apps/gui/audio-worklets.js:114-150 | everything heard is, in order and once, the posted chunks followed by the buffer; one whole chunk at most goes out per call |
| `MicChunks.MicProcessor.Encode` | apps/gui/audio-worklets.js:129-148 | two decimations, rounding, clamping and framing of one chunk |
| `MicChunks.BufferStaysShort` | apps/gui/audio-worklets.js:118-127 | with blocks no longer than a chunk the buffer stays below one chunk over any run |
| `MicRing.StepKeeps` | src/App/voice_path_manager.cpp:103-132 | every single load, store and slot access of either thread keeps the ring invariant |
| `MicRing.RunKeeps` | src/App/voice_path_manager.cpp:103-132 | so does every interleaving |
| `MicRing.PulledIsPrefix` | include/App/voice_path_manager.h:126-134 | for every interleaving the samples pulled are a prefix of those accepted, in order, and the counters at most 2048 apart |
| `MicRing.WrapIsInvisible` | include/App/voice_path_manager.h:127-134 | counters that wrap at a word the capacity divides give the same index and the same distance |
| `MicRing.VoicePath.PushMicPcm` | src/App/voice_path_manager.cpp:103-116 | nothing unless transmitting; otherwise as many samples as fit, in order, are added, by a run of the producer's steps |
| `MicRing.VoicePath.PullMicPcm` | src/App/voice_path_manager.cpp:118-132 | the oldest samples, as many as wanted and there, are copied out and removed, by a run of the consumer's steps; the rest of the output is untouched |
| `Sha1.Pad` | apps/bridge/sha1.h:27-33 | the push loops build the padding of section 5.1.1 of FIPS 180-4 |
| `Sha1.PaddingIsInjective` | apps/bridge/sha1.h:27-33 | messages below the length limit are told apart by their padding |
| `Sha1.Schedule` | apps/bridge/sha1.h:37-44 | the two loops fill the message schedule |
| `Sha1.ChooseIsCh` | apps/bridge/sha1.h:49 | the inclusive disjunction of the loop is the standard's Ch |
| `Sha1.MajorityIsMaj` | apps/bridge/sha1.h:51 | and its majority is Maj |
| `Sha1.Turn` | apps/bridge/sha1.h:47-56 | one turn of the loop is one round of section 6.1.2 |
| `Sha1.Mix` | apps/bridge/sha1.h:46-56 | the loop is the 80 rounds |
| `Sha1.BytesAreWord` | apps/bridge/sha1.h:60-67 | output bytes are the words most significant byte first |
| `Sha1.Sha1Digest` | apps/bridge/sha1.h:23-69 | the whole is the recursive definition of the standard |
| `HandshakeExamples.AbcIsPadded` | apps/bridge/sha1.h:27-32 | "abc" is padded as appendix A.1 of FIPS 180-2 prints it |
| `HandshakeExamples.AbcSchedule` | apps/bridge/sha1.h:43-44 | words of its schedule as printed there |
| `HandshakeExamples.FirstRound` | apps/bridge/sha1.h:46-56 | the first round of "abc" as appendix A.1 of FIPS 180-2 prints it; so the rounds at each change of function and constant, the schedule and the digest |
| `HandshakeExamples.AbcDigest` | apps/bridge/sha1.h:57-67 | and its digest |
| `Base64.SymbolHasValue` | apps/bridge/base64.h:15-16 | the table is the alphabet of RFC 4648 |
| `Base64.DecodeIsInjective` | apps/bridge/base64.h:14-47 | no two texts decode to the same bytes |
| `Base64.Encode` | apps/bridge/base64.h:14-47 | the result decodes to the input under section 4 of RFC 4648 and has four characters to every three bytes, rounded up |
| `Handshake.ComputeAcceptKey` | apps/bridge/ws_handshake.h:24-27 | the only text that decodes to the digest of key and GUID; always 28 characters |
| `HandshakeExamples.SampleAcceptKey` | apps/bridge/ws_handshake.h:24-27 | the accept key of the sample in section 1.3 of RFC 6455 stands for the digest printed there |

## Left out

- Golay.EncodeXor: parity is computed from the twelve basis rows the source lists beside its 4096-entry literal table; that the literal's other entries agree with them is not part of this model.
- Resampler.Resampler.constructor: needs a positive output rate; at 0 the source divides by zero phases.
- Resampler.Resampler.Filter: coefficients and sums are exact reals; float rounding, the windowed-sinc values (a parameter) and the 64-bit wrap of the running counts are not modelled.
- WsDelivery.ChunkingIsInvisible: starts after the upgrade; bytes sent in the same segment behind the upgrade request are discarded by the code.
- WsServer.WsServer.ServeSlot: how a request head is classified (loopback host and origin, upgrade, key) is a parameter, and HTTP responses are not written out.
- WsServer.WsServer.DrainSendQueue: results of sends are ignored, as in the code, so the wire is what was handed to the socket.
- RigctldServer.RigctldServer.SendReply: the refusal once the server is stopped is not modelled; the machine ends with the clean-up.
- WsInbox.EverySessionIsHeard: the two receive queues hold everything ever queued; taking messages off their fronts is not a step.
- MicRing.PulledIsPrefix: steps are sequentially consistent, the order the acquire and release accesses give the two threads.
- JsonRoundTrip.RoundTrip: a number is the exact value of a double, and rounding to doubles is a parameter that leaves the printed numbers fixed; negative zero is zero.
- JsonValue.Writer.DumpInto: text of numbers that are not 64-bit integers (`%g`) is a parameter; beyond 64 bits the source's cast is undefined and the model takes that branch.
- JsonParser.Parser.ParseValue: the depth of recursion is not bounded, as in the code.
- SpeakerRing.SpeakerProcessor.Process: samples and positions are exact reals. The two taps ahead of a position may lie past the newest sample, as in the code; `SpeakerTaps` says exactly when that is heard.
- MicChunks.MicProcessor.Encode: exact reals instead of 32-bit floats.
- TLS, timing, poll timeouts and the kernel: events the environment chooses; it never hands out a handle that is open.
- Connection ids and counters of the servers are unbounded.
- Static file serving, the browser interface, radio and modem control, link establishment, command dispatch, tools: not modelled.
- Acceptance of a word's characters after error correction (src/Codec/ale_decoder.cpp:59-63): the results are about the 24-bit word.
