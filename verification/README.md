# ZMODEM, modelled and proved

This project models a caller-driven ZMODEM implementation: a sender and a
receiver that do no I/O of their own. A caller polls them for the next action
(write these bytes, read or persist file data, look at an event) and submits
what arrives from the other side, in any pieces. So the whole protocol is state
plus byte arithmetic, and everything below holds for all inputs.

The model has three layers.

1. **The wire.** ZDLE escaping (`Zdle.dfy`), the two checksums (`Crc.dfy`), what
   they are as remainders of polynomial division (`CrcDivision.dfy`), the fixed
   buffer that everything is written through (`Buffer.dfy`), headers
   (`HeaderCodec.dfy`), the incremental header reader with its resync mode
   (`HeaderReader.dfy`), what comes of any header whoever wrote it
   (`HeaderOutcomes.dfy`), data subpackets and the running checksum of the reading
   side (`Subpacket.dfy`), and ZFILE metadata (`FileInfo.dfy`). `WireVectors.dfy`
   has the codes, escapes, positions and whole headers in numbers.
2. **The two ends.** Each end has a specification as a value (`ReceiverSpec.dfy`,
   `SenderSpec.dfy`): what one wire byte and what every call does to the whole
   state. The classes `Receiver` (`Receiver.dfy`) and `Sender` (`Sender.dfy`)
   have the fields, buffers, cursors and the event ring of the original, and
   every method is proved to do what the specification says. What the original
   promises is proved of the specification: invariants, whole runs, frames as
   seen from their bytes, and independence of how the wire is cut
   (`ReceiverInvariant.dfy`, `ReceiverFrames.dfy`, `ReceiverRuns.dfy`,
   `ReceiverCompletions.dfy`, `ReceiverEdges.dfy`, `ReceiverSlicing.dfy`,
   `SenderInvariant.dfy`, `SenderFrames.dfy`, `SenderRuns.dfy`,
   `SenderSlicing.dfy`). `Negotiation.dfy` has the four bytes of a ZRINIT,
   `SenderPacing.dfy` the pacing they call for and when a frame is closed,
   `ReceiverHandshake.dfy` the ZSINIT handshake, and `ReceiverAnswers.dfy` and
   `SenderAnswers.dfy` what either end answers to any header in any phase, to
   malformed wire and to its caller, told in the headers and bytes that go out.
3. **The two ends joined.** `Protocol.dfy` joins both ends by two queues of
   frames. Each frame is delivered through the byte-level specification of the
   end that receives it, data subpackets may arrive damaged, the timers of both
   ends may fire at any time, and both callers do what the polls ask for, in any
   interleaving; a receiver's caller may also decide on each file, accept it from
   any offset or decline it. `ProtocolDeliveries.dfy` says what each frame does.
   `ProtocolDown.dfy`, `ProtocolTransfer.dfy`, `ProtocolUp.dfy` and
   `ProtocolSafety.dfy` show that every step keeps the invariant,
   `ProtocolRuns.dfy` what that means for files and bytes, `ProtocolTimers.dfy`
   what a timer that fires too soon can break, `ProtocolFlow.dfy` that the sender
   keeps to the buffer the receiver was set up with, `ProtocolPolls.dfy` that the
   callers do what the polls ask for, `ProtocolPieces.dfy` that frames may
   as well arrive in pieces with timers firing between them, and
   `ProtocolLiveness.dfy` that the joined system never gets stuck and, with finitely
   many corruptions, ticks and changes of the window, always ends with every file
   delivered.

A state value holds the header or the messages still going out (`out`) and how
many of their bytes are gone (`sent`) where the original has a byte buffer and a
cursor; `OutgoingHolds` in the classes ties the two together. A method that
returns `Result<Option<()>>` in the original returns `Turn`, `Outcome` or
`Result<bool>` here. `Inv` is the invariant of an end; `Spent` is the state
after a fatal checksum or metadata error, where a run of the model ends.

Some claims one might make do not hold of the code. The model keeps the code as
it is and says exactly when they do hold.

- The end of a session is not final for the receiver: persisting data that was on
  offer when it was aborted can move it on. `ReceiverRuns.SessionEndStays` says
  exactly when, and `ReceiverEdges.SessionEndLeft` gives a run from the start.
- One file can be reported complete twice. Without a ZDATA that comes between files
  at the offset where the last one ended, completions never pass starts
  (`ReceiverCompletions.CompletionsBounded`); wherever such a ZDATA comes, there is
  a way to go on that completes a file without a new start
  (`ReceiverEdges.ReopenedCompletes`), and `ReceiverEdges.CompletedTwice` gives a
  run from the start.
- A file that the sender reports complete need not be closed at the receiver. It is
  on every run on which the receiver's timer never fires while the receiver waits
  for data and has asked for an offset at or past the end of the file
  (`ProtocolRuns.SenderReports`). That condition is exact: wherever the timer can
  first fire that way, letting it fire leads to a wrong report
  (`ProtocolTimers.EarlyReport`), and `ProtocolTimers.EmptyFileReportedEarly` gives
  such a run for any session that starts with an empty file. What the receiver
  persists and reports is right on every run (`ProtocolRuns.EndToEndSafety`), and
  delivery holds with such ticks as well (`ProtocolLiveness.Delivery`), because the
  ZEOF still comes before whatever the sender goes on with.
- How the wire is cut does not matter to the sender's state or output, but it can
  matter to its events, of which it keeps one: a schedule reports what any other
  over the same stream reports if and only if no event was replaced before its
  caller looked (`SenderSlicing.ChunkIndependence`), and
  `SenderSlicing.EventForgotten` gives a slice in which one is.
- A ZDATA at an unexpected offset is answered, but its data is skipped only if no
  ZPAD stands right before a ZDLE in it, because resync is not armed
  (`ReceiverFrames.UnexpectedData`, `ReceiverFrames.UnexpectedDataBreaks`).
- A hex ZSINIT is acknowledged whatever its attention string, unless that begins with
  LF (0x0A or 0x8A), which goes the way of the line trailer; then it is acknowledged if
  and only if the CRC-16 of the bytes lost is zero, and never for one or two of them
  (`ReceiverHandshake.Handshake`, `ReceiverHandshake.WhatIsLost`).
- Only behind a ZSINIT is the line trailer of a hex header skipped. A ZFILE or ZDATA in
  hex, written out whole, never gets its metadata or data through
  (`ReceiverHandshake.EndingSpoils`, `ReceiverHandshake.HexFileRefused`).

Three smaller surprises are kept as well: a hex subpacket is refused only after its
data and terminator went out (`Subpackets.WriteSubpacket`); `start_file` leaves
the new name and size on record even when it answers with backpressure
(`SenderMachine.Sender.StartFile`); and `submit_wire` of the receiver returns in the
middle of a trailer, with input left and nothing to drain, so that its caller has to
submit the rest (`ReceiverMachine.Receiver.SubmitWire`).

## Model

| member | source | states |
|---|---|---|
| `Zdle.EscapeTableMeaning` | src/zdle.rs:6-23 | the 256-entry table covers exactly the eleven special values and maps each to its cover |
| `Zdle.UnescapeTableMeaning` | src/zdle.rs:26-43 | the inverse table is the uncovering rule on all 256 values |
| `Zdle.CoverSafe` | src/zdle.rs:6-43 | a covered value uncovers to itself and is never special, never an encoding byte, never a terminator, never ZPAD |
| `Zdle.EscRoundTrip` | src/header.rs:293-315 | escaped bytes read back, one at a time and with any state kept, as the bytes escaped (section 7.2 of the ZMODEM specification) |
| `Zdle.EscInjective` | src/header.rs:293-315 | two payloads with the same escaped form are the same payload |
| `Zdle.EscSize` | src/header.rs:293-315 | escaping never shortens and at most doubles |
| `Zdle.EscapedLanguage` | src/zdle.rs:6-43 | escaped bytes contain no other special value, no ZDLE twice in a row, and no ZDLE before an encoding byte or a terminator: payload forges neither a header, nor a terminator, nor a CAN run |
| `WireVectors.Escapes` | src/zdle.rs:6-23 | by number: nine values travel behind ZDLE with bit 6 flipped, 0x7F as 'l', 0xFF as 'm', all others bare; and each reads back |
| `WireVectors.Unescapes` | src/zdle.rs:26-43 | what ZDLE makes of any byte behind it, whoever wrote it |
| `Crc.UpdateByte16` | src/crc.rs:91-103 | eight shift steps from the mixed-in byte, by a loop; `CrcDivision` says what comes of them |
| `Crc.UpdateByte32` | src/crc.rs:106-118 | the same for the reflected 32-bit register |
| `Crc.Crc16Xmodem` | src/crc.rs:6-14 | the loop over the data computes the CRC-16 register |
| `Crc.Crc32IsoHdlc` | src/crc.rs:18-26 | the loop over the data computes the complemented CRC-32 register |
| `Crc.Crc16.Update` | src/crc.rs:41-45 | feeding a slice moves the register as its bytes do |
| `Crc.Crc32.Update` | src/crc.rs:72-76 | the same for 32 bits |
| `Crc.Register16Concat` | src/crc.rs:39-57 | the incremental CRC-16 over two parts is the batch one over both |
| `Crc.Register32Concat` | src/crc.rs:70-88 | the same for 32 bits |
| `Crc.Shifts32Injective` | src/crc.rs:106-118 | any number of register steps loses nothing: the step is invertible |
| `Crc.BurstDetected32` | src/crc.rs:18-26 | any two texts that differ in at most four consecutive bytes have different CRC-32s |
| `Crc.BurstDetected16` | src/crc.rs:6-14 | any two texts that differ in at most two consecutive bytes have different CRC-16s |
| `Crc.Residue16` | src/crc.rs:6-14 | a text followed by its own CRC-16, high byte first, has CRC-16 zero |
| `CrcDivision.Crc16IsRemainder` | src/crc.rs:6-14 | for every text: the text times x^16 is a multiple of x^16 + x^12 + x^5 + 1 plus its CRC-16, with coefficients modulo two, the high bit of every byte first |
| `CrcDivision.Crc32IsRemainder` | src/crc.rs:18-26 | for every text: the text times x^32, its first 32 coefficients complemented, is a multiple of the generator of CRC-32 plus the complement of its CRC-32, the low bit of every byte first |
| `CrcDivision.RemainderUnique` | src/crc.rs:91-118 | one quotient and one remainder only satisfy such an equation, so the two above fix both checksums |
| `CrcDivision.SealedIsMultiple16` | src/header.rs:281-291 | a text with its CRC-16 behind it, in wire order, is a multiple of the generator |
| `CrcDivision.SealedIsMultiple32` | src/header.rs:281-291 | the same for CRC-32 in wire order, up to its complements |
| `WireVectors.CheckValue16` | src/crc.rs:6-14 | the check value 0x31C3 over the digits 1 to 9 |
| `WireVectors.CheckValue32` | src/crc.rs:18-26 | the check value 0xCBF43926 |
| `Buffers.Buffer.Clear` | src/buffer.rs:56-58 | the buffer is empty |
| `Buffers.Buffer.Push` | src/buffer.rs:65-73 | appends the byte if there is room and changes nothing otherwise |
| `Buffers.Buffer.ExtendFromSlice` | src/buffer.rs:80-88 | appends the whole slice if there is room and nothing of it otherwise |
| `Buffers.WriteByte` | src/wire.rs:258-264 | takes the byte or reports a full sink |
| `Buffers.WriteByteEscaped` | src/header.rs:306-315 | writes the escaped form of the byte as far as the sink has room |
| `Buffers.WriteSliceEscaped` | src/header.rs:293-304 | writes the escaped form of the slice as far as the sink has room, and says whether all of it fit |
| `HeaderCodec.CountRoundTrip` | src/header.rs:61-65 | a position put into a header is the position read from it |
| `WireVectors.Positions` | src/header.rs:61-65 | a position travels low byte first, and is read so |
| `WireVectors.Codes` | src/header.rs:130-194 | the number of every frame type, encoding and terminator |
| `HeaderCodec.EncodingOf` | src/header.rs:136-148 | an encoding byte is read if and only if it is one of the three written |
| `HeaderCodec.FrameOf` | src/header.rs:196-226 | a frame byte is read if and only if it is below 20, and stands for itself |
| `HeaderCodec.HexRoundTrip` | src/header.rs:88-96 | hex text decodes to the bytes encoded |
| `WireVectors.Digits` | src/header.rs:90-94 | hex digits are written in lower case and read in either; nothing else is one |
| `HeaderCodec.MakeCrc` | src/header.rs:281-291 | the checksum of the payload in wire order for the encoding |
| `HeaderCodec.WriteHeaderStart` | src/header.rs:249-263 | ZPADs, ZDLE and the encoding byte, as far as they fit |
| `HeaderCodec.WriteHeaderEndHex` | src/header.rs:265-279 | CR LF, and XON except after ZACK and ZFIN, as far as they fit |
| `HeaderCodec.WriteHeader` | src/header.rs:72-107 | writes exactly the encoding of the header as far as the sink has room |
| `HeaderCodec.HeaderSize` | src/wire.rs:21-23 | no header takes more than 21 bytes |
| `HeaderCodec.DecodeBody` | src/wire.rs:361-399 | what was written for a header decodes to that header, in every encoding |
| `HeaderCodec.DecodeSound` | src/wire.rs:361-399 | nothing else decodes to it: payload and checksum are the header's own |
| `WireVectors.HexForm` | src/header.rs:72-107 | a hex header by number: 2A 2A 18 42, frame code, flags and CRC-16 as text, 0D 0A, and 11 for all but ZACK and ZFIN |
| `WireVectors.BinaryForm` | src/header.rs:72-107 | a binary header by number: 2A 18, 41 or 43, frame code, flags and checksum escaped |
| `WireVectors.WriteHexOnes` | src/tests.rs:53 | the hex test vector for writing |
| `WireVectors.WriteBinaryZeros` | src/tests.rs:50 | the ZBIN test vector of zeros |
| `WireVectors.WriteBinaryOnes` | src/tests.rs:52 | the ZBIN test vector of ones |
| `WireVectors.WriteBinary32Zeros` | src/tests.rs:51 | the ZBIN32 test vector |
| `WireVectors.WriteZnak` | src/header.rs:21-27 | the bytes of ZNAK; `WriteZack`, `WriteZfin` and `WriteZsinit` have those of three others |
| `HeaderOutcomes.HeaderJudged` | src/wire.rs:361-399 | any five bytes and checksum, in any encoding and however escaped, out of resync: a wrong checksum and an unknown frame type are reported as such, and anything else is the header with that frame code and those flags |
| `HeaderOutcomes.HeaderResynced` | src/wire.rs:180-208 | in resync the malformed ones are passed over without a word, and a good one ends it |
| `HeaderOutcomes.NotHex` | src/wire.rs:361-375 | hex text with a character that is no digit is a malformed header |
| `HeaderOutcomes.NoEncoding` | src/wire.rs:145-161 | a byte that is no encoding behind a header start is reported, or passed over in resync |
| `HeaderOutcomes.OtherLengths` | src/wire.rs:361-380 | the errors for bodies of lengths the reader never decodes |
| `HeaderOutcomes.OneHeader` | src/wire.rs:131-208 | what is written for a header, line ending included, reads back as that header alone |
| `WireVectors.ReadHex` | src/tests.rs:64 | the hex test vector for reading |
| `WireVectors.ReadBinary` | src/tests.rs:65 | the ZBIN one |
| `WireVectors.ReadBinary32` | src/tests.rs:66 | the ZBIN32 one |
| `WireVectors.ReadEscaped` | src/tests.rs:67 | the one with flags 0x7F and 0xFF |
| `HeaderReading.ReadByteUnescaped` | src/wire.rs:332-359 | decodes the next byte through the port, keeping a pending ZDLE across calls |
| `HeaderReading.HeaderReader.EnterResync` | src/wire.rs:94-96 | arms the resync mode and nothing else |
| `HeaderReading.HeaderReader.Reset` | src/wire.rs:100-107 | back to seeking without leaving resync mode |
| `HeaderReading.HeaderReader.AdvanceZpadState` | src/wire.rs:109-129 | the ZPAD automaton, and whether a header starts |
| `HeaderReading.HeaderReader.Read` | src/wire.rs:131-208 | one call over a slice does to the reader, the cursor and the answer what the byte automaton does up to its first outcome |
| `HeaderReading.SliceReader.ReadByte` | src/wire.rs:226-235 | the next byte of the slice, if there is one |
| `HeaderReading.SlicingIrrelevant` | src/wire.rs:131-208 | however a stream is cut into slices, the reader meets the same outcomes and ends in the same state |
| `HeaderReading.HeaderRead` | src/wire.rs:131-208 | a written header is read back from any seeking state, and the reader stops on its last byte |
| `HeaderReading.HeaderStreamRoundTrip` | src/wire.rs:131-208 | any list of headers in any mix of encodings, with gaps that hold no header start, decodes under any slicing to exactly that list (section 7.3 of the ZMODEM specification) |
| `HeaderReading.StraySkipped` | src/wire.rs:145-167 | in resync, bytes in which no ZDLE introduces an encoding are skipped without a word |
| `HeaderReading.ResyncFindsHeader` | src/wire.rs:88-96 | and the header behind them is returned exactly |
| `HeaderReading.StrayUnarmed` | src/wire.rs:145-160 | without resync the same bytes are skipped if and only if no ZPAD stands right before a ZDLE, and are a malformed encoding otherwise |
| `Subpackets.KindOf` | src/wire.rs:36-48 | a terminator byte is read if and only if it is one of the four written |
| `Subpackets.WriteSubpacket` | src/wire.rs:432-468 | writes exactly the escaped data, terminator and checksum as far as the sink has room; hex is refused, but late |
| `Subpackets.SubpacketSize` | src/wire.rs:22-23 | a subpacket of n bytes takes at most 2n + 10 |
| `WireVectors.SubpacketForm` | src/wire.rs:432-468 | a subpacket by number: data escaped, 18 and the terminator, the checksum of both escaped |
| `Subpackets.ResyncSound` | src/wire.rs:88-208 | cut any run of subpackets anywhere, even inside an escape, and append any header: a reader seeking in resync mode skips exactly the rest of the run and returns exactly that header |
| `Subpackets.CrcAfterSnoc` | src/wire.rs:293-299 | one more byte takes the running checksum of some data to that of the longer data, which stands for the batch checksum; `ReceiverInvariant.FeedInv` keeps that of the data staged |
| `Subpackets.BurstBreaksSeal` | src/wire.rs:317-327 | a change of at most as many bytes as the checksum has breaks a subpacket's seal |
| `Subpackets.RxCrc.Reset` | src/wire.rs:286-291 | a fresh checksum |
| `Subpackets.RxCrc.Update` | src/wire.rs:293-299 | one more data byte in the register of the encoding |
| `Subpackets.RxCrc.Process` | src/wire.rs:301-329 | takes one trailer byte through the unescaper and judges the trailer when it is complete |
| `FileMetadata.ParseFileSize` | src/file.rs:15-32 | succeeds exactly on digits whose value is below 2^32, with that value; nothing is zero |
| `FileMetadata.WriteZfile` | src/file.rs:35-57 | stages the metadata and writes the ZFILE frame, or refuses metadata that is too long |
| `WireVectors.MetadataForm` | src/file.rs:35-57 | what is announced: name, NUL, the size in decimal without leading zeros, NUL |
| `WireVectors.LeadingDigit` | src/file.rs:15-32 | the value of a decimal number, digit by digit from its front |
| `WireVectors.SizeLimit` | src/file.rs:15-32 | the largest size is 2^32 - 1; nothing is zero |
| `FileMetadata.MetadataRoundTrip` | src/receiver.rs:530-557 | name and size are recovered from what was written, with or without further fields (section 13 of the ZMODEM specification) |
| `FileMetadata.WrittenMetadataParses` | src/file.rs:35-57 | every name of 1 to 256 bytes without NUL and every 32-bit size survive printing and parsing |
| `ReceiverInvariant.HandleHeaderInv` | src/receiver.rs:433-527 | no header can fail to be handled, whatever it is, and the invariant survives it |
| `ReceiverInvariant.RecoverInv` | src/receiver.rs:754-768 | recovery succeeds if and only if fewer than ten were spent, and gives the checksum error unchanged otherwise |
| `ReceiverInvariant.FeedInv` | src/receiver.rs:197-249 | the invariant survives any wire bytes whatever, up to a fatal checksum or metadata error: the running checksum is that of what is staged, cursors are in bounds, phases match; and what breaks a run is never backpressure or an invalid state |
| `ReceiverInvariant.FileWrittenInv` | src/receiver.rs:282-299 | persisting never meets backpressure; it fails exactly when the offset would pass 32 bits |
| `ReceiverInvariant.TimeoutInv` | src/receiver.rs:309-318 | a timeout never fails |
| `ReceiverFrames.HeaderFed` | src/receiver.rs:228-237 | the bytes of a header act on the receiver as that one header |
| `ReceiverFrames.StrayFed` | src/receiver.rs:742-768 | in resync, what is left of subpackets changes nothing but the reader, which keeps seeking |
| `ReceiverFrames.SubpacketFed` | src/receiver.rs:561-652 | the bytes of a subpacket stage exactly its data and are judged good if and only if its seal is intact |
| `ReceiverFrames.SubpacketRoundTrip` | src/receiver.rs:561-698 | what was written as a subpacket, cut in any pieces, is taken whole and completes with its data, terminator and a good checksum |
| `ReceiverFrames.UnexpectedData` | src/receiver.rs:475-484 | the subpackets behind a ZDATA at another offset pass if and only if no ZPAD stands right before a ZDLE in them |
| `ReceiverFrames.UnexpectedDataBreaks` | src/receiver.rs:481-484 | such a ZDATA is answered with the offset wanted and arms nothing, and a payload of two bytes then breaks the run |
| `Negotiation.Advertises` | src/wire.rs:405-423 | for every buffer length of 16 bits: the ZRINIT queued has the length low byte first, CANOVIO as set up, CANFDX and CANFC32, and the sender reads exactly that out of it |
| `ReceiverHandshake.Handshake` | src/receiver.rs:438-463 | from the wait for a session: a ZSINIT header in any encoding, any line trailer behind a hex one, an attention string of at most 1024 bytes with any terminator, all of it is taken, the session begins over with nothing staged and ZACK with count zero on offer; behind a hex header if and only if the CRC-16 of the LFs it begins with is zero, and the checksum error otherwise |
| `ReceiverHandshake.WhatIsLost` | src/receiver.rs:618-634 | no LF in front: always acknowledged; one or two: never |
| `ReceiverHandshake.LrzszOpening` | src/tests.rs:353-363 | the captured opening of lrzsz is acknowledged |
| `ReceiverHandshake.EndingSpoils` | src/receiver.rs:464-492 | the line ending of a hex ZFILE or ZDATA is taken for data, and spoils any metadata and any data behind it |
| `ReceiverHandshake.HexFileRefused` | src/receiver.rs:464-474 | so a hex ZFILE written out whole is always refused |
| `ReceiverAnswers.MalformedAnswered` | src/receiver.rs:228-235 | a byte with which the header reader fails is refused with its error, and a hex ZNAK with count zero is all that is on offer; nothing else changes |
| `ReceiverAnswers.OfferReads` | src/receiver.rs:394-407 | what is on offer reads back as that one header |
| `ReceiverAnswers.BreakAnswered` | src/receiver.rs:228-235 | any run of bytes that breaks outside a subpacket leaves that ZNAK on offer |
| `ReceiverAnswers.DamagedHeaderAnswered` | src/receiver.rs:228-235 | a whole header with a wrong checksum or an unknown frame type: the error that says so, and the ZNAK |
| `ReceiverAnswers.HeedsExactly` | src/receiver.rs:433-527 | exactly which headers say something in which phase; all others change nothing |
| `ReceiverAnswers.AsksHeard` | src/receiver.rs:434-437 | ZRQINIT or an early ZDATA is answered with the set-up |
| `ReceiverAnswers.ZdataHeard` | src/receiver.rs:475-492 | a ZDATA at the offset wanted opens data in its encoding; at any other it is answered with a ZRPOS for the offset wanted |
| `ReceiverAnswers.EndsHeard` | src/receiver.rs:510-523 | ZFIN between files is returned and ends the session; ZABORT and ZCAN end it in any phase |
| `ReceiverAnswers.ZeofHeard` | src/receiver.rs:493-509 | a ZEOF at the offset reached completes the file and lets a ZRINIT out |
| `ReceiverAnswers.FileAnnounced` | src/receiver.rs:464-474 | a ZFILE header up to its checksum and its metadata, in any encoding, announce exactly the file described, which is asked for from its start unless the caller decides |
| `ReceiverAnswers.DataArrives` | src/receiver.rs:475-492 | a ZDATA header at the offset wanted, up to its checksum, and a subpacket, in any encoding, put exactly its data on offer |
| `ReceiverAnswers.DataAnswered` | src/receiver.rs:689-740 | data goes on offer, nothing more; empty data is answered at once as its terminator asks |
| `ReceiverAnswers.PersistedAnswered` | src/receiver.rs:703-740 | once all is persisted, in however many parts: the offset moves, 6B and 6A are answered with a ZACK for it, 6A and 69 go on with data, 6B and 68 with a header; past 32 bits it is refused |
| `ReceiverAnswers.DamageAnswered` | src/receiver.rs:637-652 | data under a wrong checksum is dropped and its offset asked for again, ten times in a row; after that, and for metadata and a ZSINIT at once, the checksum error, with nothing sent |
| `ReceiverAnswers.Overfull` | src/receiver.rs:589-590 | the 1025th byte of a subpacket is refused |
| `ReceiverAnswers.MetadataRefused` | src/receiver.rs:530-557 | no name, a name of more than 256 bytes, a size that is no 32-bit decimal number: each its error, with nothing sent |
| `ReceiverAnswers.MetadataParts` | src/receiver.rs:530-557 | every payload has the name and size field these two speak of |
| `ReceiverAnswers.DecisionAnswered` | src/receiver.rs:156-187 | accepting asks for the caller's offset, declining says ZSKIP; out of turn, or with something going out, nothing changes |
| `ReceiverAnswers.TimeoutAnswered` | src/receiver.rs:309-328 | a timeout repeats the set-up exactly while a session or file is waited for with nothing going out; an abort fails on four waiting events only |
| `ReceiverAnswers.Draining` | src/receiver.rs:366-372 | no wire input is taken exactly while wire or file bytes are on offer or four events wait; what is written out is gone and the rest still there |
| `ReceiverAnswers.FirstWords` | src/receiver.rs:101-127 | a new receiver waits for a session with its set-up on offer |
| `ReceiverRuns.StepKept` | src/receiver.rs:282-299 | conservation and the retry budget survive any single call or wire byte |
| `ReceiverRuns.RunKept` | src/receiver.rs:703-768 | over any run of bytes and calls: the offset plus the bytes written of the current subpacket is the accepted start plus all bytes persisted; at most ten rewinds are asked for without progress, all for the same offset |
| `ReceiverRuns.CompletionMeansAll` | src/receiver.rs:493-509 | a file is reported complete only on a ZEOF whose position is the accepted start plus what was persisted |
| `ReceiverRuns.OfferedOnlySealed` | src/receiver.rs:635-695 | data comes on offer only when its trailer is the checksum of exactly that data and its terminator |
| `ReceiverRuns.SessionEndStays` | src/receiver.rs:282-328 | a session that has ended stays ended if and only if no data on offer is persisted to its last byte under ZCRCW or ZCRCE |
| `ReceiverRuns.BetweenFiles` | src/receiver.rs:475-509 | one header between files: no ZEOF completes anything, and a data frame opens if and only if it is a ZDATA at the last offset |
| `ReceiverCompletions.Balanced` | src/receiver.rs:433-527 | over any run of bytes and calls from any state with no file under way, without a ZDATA that opens the last file again: completions never pass starts, and while a file is under way there is a start without one |
| `ReceiverCompletions.NoCompletionBetween` | src/receiver.rs:493-509 | and so nothing is reported complete before the next file starts |
| `ReceiverCompletions.CompletionsBounded` | src/receiver.rs:493-509 | and on every such run from the start, completions never pass starts |
| `ReceiverEdges.ReopenedCompletes` | src/receiver.rs:475-509 | the converse: wherever such a ZDATA comes between files, there is a way to go on with a completion and no start |
| `ReceiverEdges.CompletedTwice` | src/receiver.rs:475-509 | a run from the start, over the bytes of real frames, that reports one start and two completions |
| `ReceiverEdges.SessionEndLeft` | src/receiver.rs:325-328 | a run from the start, over the bytes of real frames, that ends the session with data on offer; persisting it then makes the receiver wait for data again |
| `ReceiverSlicing.RunIsCanon` | src/receiver.rs:197-249 | every schedule of submitting and draining, with timeouts, decisions on files, mode changes and aborts between, settles where taking the stream one byte or call at a time does |
| `ReceiverSlicing.ChunkIndependence` | src/receiver.rs:197-249 | two schedules over the same stream, with the same calls at the same places but cut and drained differently, end with the same state, wire bytes, file bytes and events |
| `ReceiverMachine.Receiver.WithFlowControl` | src/receiver.rs:101-127 | the initial state, with its ZRINIT queued |
| `ReceiverMachine.Receiver.SetManualFileAccept` | src/receiver.rs:140-142 | switches the mode and nothing else |
| `ReceiverMachine.Receiver.AcceptFileAt` | src/receiver.rs:156-169 | only while a file waits to be accepted: the offset becomes the start and is asked for |
| `ReceiverMachine.Receiver.SkipFile` | src/receiver.rs:179-187 | only while a file waits to be accepted: ZSKIP is queued |
| `ReceiverMachine.Receiver.SubmitWire` | src/receiver.rs:197-249 | the bytes it takes act one by one as specified; some are taken if any can be, and all until something has to be drained or part of a trailer is in; an error is never backpressure or an invalid state, and one met outside a subpacket leaves exactly a ZNAK in the outgoing buffer |
| `ReceiverMachine.Receiver.WireWritten` | src/receiver.rs:258-266 | moves the cursor and clears the buffer once it is out |
| `ReceiverMachine.Receiver.FileWritten` | src/receiver.rs:282-299 | moves the offset when the subpacket is persisted; the one error is an offset past 32 bits |
| `ReceiverMachine.Receiver.Timeout` | src/receiver.rs:309-318 | asks again while waiting for a session or a file with nothing queued |
| `ReceiverMachine.Receiver.Abort` | src/receiver.rs:325-328 | ends the session; fails only on a full event ring |
| `ReceiverMachine.Receiver.Poll` | src/receiver.rs:335-358 | events first, then wire bytes, then file bytes, then nothing |
| `ReceiverMachine.Receiver.Blocked` | src/receiver.rs:366-368 | whether anything on offer has to be drained first |
| `ReceiverMachine.Receiver.PushEvent` | src/receiver.rs:374-382 | the ring takes the event at its end unless it is full |
| `ReceiverMachine.Receiver.PopEvent` | src/receiver.rs:384-392 | the ring gives its oldest event |
| `ReceiverMachine.Receiver.QueueHeader` | src/receiver.rs:394-407 | every header fits, so the one refusal is backpressure |
| `ReceiverMachine.Receiver.QueueZrinit` | src/receiver.rs:409-416 | a hex ZRINIT that says the receiver's buffer length and CANOVIO, or backpressure |
| `ReceiverMachine.Receiver.HandleHeader` | src/receiver.rs:433-527 | every frame type in every phase does what is specified, which `ReceiverAnswers` and `ReceiverHandshake` tell in what goes out |
| `ReceiverMachine.Receiver.ParseZfileBuf` | src/receiver.rs:530-557 | name and size out of the staged metadata, with each error leaving what it leaves |
| `ReceiverMachine.Receiver.TakeFollower` | src/receiver.rs:561-571 | the byte after a ZDLE is a terminator or an escaped data byte |
| `ReceiverMachine.Receiver.PlainByte` | src/receiver.rs:574-592 | a byte that follows no ZDLE, taking a follower along if it is one |
| `ReceiverMachine.Receiver.DataByte` | src/receiver.rs:595-611 | the next byte of data, with a pending escape carried over |
| `ReceiverMachine.Receiver.TrailerLine` | src/receiver.rs:618-634 | skips the line trailer of a hex header and takes the first other byte |
| `ReceiverMachine.Receiver.ProcessSubpacket` | src/receiver.rs:613-701 | one turn does what its bytes do, and takes some if any can be taken |
| `ReceiverMachine.Receiver.CompleteSubpacket` | src/receiver.rs:654-696 | metadata announces a file, a ZSINIT is acknowledged, data goes on offer |
| `ReceiverMachine.Receiver.FinishSubpacket` | src/receiver.rs:703-740 | the offset moves, the retry counter is cleared, and each terminator is answered as it asks |
| `ReceiverMachine.Receiver.RecoverCorruptSubpacket` | src/receiver.rs:754-768 | asks for a rewind to the unchanged offset and arms resync, or gives up |
| `SenderInvariant.DataFits` | src/wire.rs:21-23 | a data frame takes at most 21 + 2 * 1024 + 2 + 8 bytes |
| `SenderInvariant.ZfileFits` | src/sender.rs:351-359 | a ZFILE frame with a name of at most 256 bytes fits the outgoing buffer and its metadata one subpacket |
| `SenderInvariant.HandleHeaderInv` | src/sender.rs:406-426 | no header can fail to be handled with nothing waiting to go out, and the invariant survives it |
| `SenderInvariant.OnZrposInv` | src/sender.rs:489-512 | a position opens a well-formed request or ends the file |
| `SenderInvariant.FeedInv` | src/sender.rs:232-259 | the invariant survives any wire bytes: data is asked for exactly while a request is pending, which lies in the file and has the length and frame budget it should; and what breaks a run is never backpressure or an invalid state |
| `SenderInvariant.SubmitFileInv` | src/sender.rs:168-222 | with nothing waiting to go out, data is accepted if and only if it is not empty and fits the request; a refusal changes nothing |
| `SenderInvariant.StartFileInv` | src/sender.rs:111-142 | between files, a file is accepted if and only if its size is known and its name fits |
| `SenderRuns.RunKept` | src/sender.rs:168-222 | over any run: every frame is one ZDATA at the offset asked for, then exactly the bytes supplied, closed once, and within what the receiver allowed (section 9.5 of the ZMODEM specification) |
| `SenderRuns.PacingFits` | src/sender.rs:463-487 | the pacing derived from a ZRINIT is within the advertised buffer, or the window if there is none |
| `SenderPacing.CapsExact` | src/sender.rs:463-487 | the pacing is the largest a ZRINIT allows: subpackets of the smaller of buffer length and 1024; with CANOVIO n of them, n * size <= buffer length < (n + 1) * size, or the window if there is no buffer length; without it one; and nothing else changes |
| `SenderPacing.WindowExact` | src/sender.rs:89-99 | a window of ten to begin with, never below one, effective at once for a nonstop receiver only |
| `SenderPacing.RunPaced` | src/sender.rs:190-221 | over any run: while data is asked for, a whole subpacket or the rest of the file is, right behind the last; a frame has as many subpackets as the pacing at its opening allows, and is closed with fewer only at the end of the file or after a short read |
| `SenderAnswers.MalformedAnswered` | src/sender.rs:241-249 | a byte with which the header reader fails is refused with its error, and a hex ZNAK with count zero is all that is on offer |
| `SenderAnswers.OfferReads` | src/sender.rs:339-345 | what is on offer reads back as that one header |
| `SenderAnswers.BreakAnswered` | src/sender.rs:241-249 | whatever breaks a run of bytes, that ZNAK is on offer |
| `SenderAnswers.DamagedHeaderAnswered` | src/sender.rs:241-249 | a whole header with a wrong checksum or an unknown frame type: the error that says so, and the ZNAK |
| `SenderAnswers.HeedsExactly` | src/sender.rs:406-426 | pacing aside, exactly which headers say something in which phase; all others change nothing |
| `SenderAnswers.HandshakeHeard` | src/sender.rs:431-442 | the first ZRINIT is answered with the file on record, or ZFIN if the caller is done, or nothing yet |
| `SenderAnswers.EarlyHeard` | src/sender.rs:406-426 | before it, anything else but a skip, an end or an abort makes the sender ask again |
| `SenderAnswers.FileEndHeard` | src/sender.rs:443-452 | the answer to a ZEOF reports the file; the sender is ready for the next, or says ZFIN if its caller is done |
| `SenderAnswers.SessionEndHeard` | src/sender.rs:453-457 | the answer to a ZFIN is OO, and the session is reported done |
| `SenderAnswers.SkipHeard` | src/sender.rs:514-534 | a skip reports the file wherever it stands; an abort ends the session; neither sends anything |
| `SenderAnswers.PositionHeard` | src/sender.rs:489-512 | a position within the file is read from next; one at or past the end is answered with ZEOF there |
| `SenderAnswers.StartAnswered` | src/sender.rs:111-142 | each refusal in order, and the exact frame that announces the file |
| `SenderAnswers.DataAnswered` | src/sender.rs:168-222 | each refusal in order, and the exact subpacket, behind a ZDATA at its offset if it opens a frame, under 6B if it closes it and under 69 if not |
| `SenderAnswers.CallsAnswered` | src/sender.rs:149-159 | finish, timeout and abort in every phase |
| `SenderAnswers.Draining` | src/sender.rs:232-276 | no wire input is taken exactly while wire bytes are on offer, data is asked for or the session is over; what is written out is gone and the rest still there |
| `SenderAnswers.FirstWords` | src/sender.rs:55-77 | a new sender asks for a receiver |
| `SenderFrames.HeaderFed` | src/sender.rs:241-251 | the bytes of a header act on the sender as that one header |
| `SenderSlicing.RunIsCanon` | src/sender.rs:232-259 | every schedule of submitting and draining, with the caller's other calls between, settles where taking the stream one byte or call at a time does, with as many events missing as were replaced on the way |
| `SenderSlicing.ChunkIndependence` | src/sender.rs:232-259 | two schedules over the same stream end with the same state and wire bytes; with the same events if and only if neither replaced one, given that one of them did not |
| `SenderSlicing.EventForgotten` | src/sender.rs:444-458 | the answer to a ZEOF and an abort in one slice: the completed file is not reported; in two slices it is |
| `SenderMachine.Sender.Create` | src/sender.rs:55-77 | the initial state, with its ZRQINIT queued |
| `SenderMachine.Sender.SetStreamingWindow` | src/sender.rs:89-99 | the window, effective at once for a nonstop receiver and never below one |
| `SenderMachine.Sender.StartFile` | src/sender.rs:111-142 | each refusal in order, then the file on record and its ZFILE queued |
| `SenderMachine.Sender.Finish` | src/sender.rs:149-159 | remembered, and ZFIN queued between files |
| `SenderMachine.Sender.SubmitFile` | src/sender.rs:168-222 | each refusal in order, then the subpacket queued and the request moved on or closed |
| `SenderMachine.Sender.SubmitWire` | src/sender.rs:232-259 | the bytes it takes act one by one as specified, and all are taken until something has to be drained, data is asked for or the session is over; an error is never backpressure or an invalid state, and leaves exactly a ZNAK in the outgoing buffer; the invariant holds after, error or not |
| `SenderMachine.Sender.WireWritten` | src/sender.rs:268-276 | moves the cursor and clears the buffer once it is out |
| `SenderMachine.Sender.Timeout` | src/sender.rs:286-291 | asks again while waiting for the receiver with nothing queued |
| `SenderMachine.Sender.Abort` | src/sender.rs:294-298 | ends the session and drops the request |
| `SenderMachine.Sender.Poll` | src/sender.rs:305-326 | events first, then wire bytes, then a read request, then nothing |
| `SenderMachine.Sender.QueueHeader` | src/sender.rs:339-345 | every header fits, so the one refusal is backpressure |
| `SenderMachine.Sender.QueueZfile` | src/sender.rs:351-359 | the ZFILE header and metadata are queued whole |
| `SenderMachine.Sender.QueueZdata` | src/sender.rs:361-381 | a ZDATA header if the frame needs one, then the subpacket, whole |
| `SenderMachine.Sender.QueueOo` | src/sender.rs:395-404 | the closing OO is queued whole |
| `SenderMachine.Sender.HandleHeader` | src/sender.rs:406-426 | every frame type in every phase does what is specified |
| `SenderMachine.Sender.OnZrinit` | src/sender.rs:428-461 | the handshake, the end of a file and the end of the session |
| `SenderMachine.Sender.UpdateReceiverCaps` | src/sender.rs:463-487 | subpacket size and pacing are the largest that the buffer length and CANOVIO in the header allow |
| `SenderMachine.Sender.OnZrpos` | src/sender.rs:489-512 | a frame from the offset, or ZEOF at or past the end |
| `SenderMachine.Sender.OnZskip` | src/sender.rs:514-528 | the file is dropped and reported done |
| `ProtocolDeliveries.DataHeard` | src/receiver.rs:635-695 | a whole subpacket puts exactly its data on offer |
| `ProtocolDeliveries.DamageHeard` | src/receiver.rs:754-768 | a damaged one makes the receiver drop it, ask for the unchanged offset and resynchronise |
| `ProtocolDeliveries.MetadataHeard` | src/receiver.rs:654-675 | the metadata frame announces the file that was sent, and asks for it from the start unless the caller decides |
| `ProtocolDeliveries.PositionTold` | src/sender.rs:489-512 | an acknowledgement or rewind opens the next frame there, or ends the file |
| `ProtocolDeliveries.EndingSkipped` | src/header.rs:265-279 | the line ending of a hex header changes nothing on either side |
| `ProtocolDeliveries.ZrinitTold` | src/sender.rs:428-461 | a ZRINIT starts, ends a file or ends the session in the three phases that wait for one, and changes nothing but pacing in the others |
| `ProtocolTransfer.DownLands` | src/receiver.rs:197-249 | every frame that reaches the receiver is taken without an error, keeps what holds, and leaves less to do |
| `ProtocolTransfer.DamageSurvived` | src/receiver.rs:754-768 | a subpacket damaged inside a frame leaves a state from which the frame is sent again from the same offset, with everything behind it accounted for as left over |
| `ProtocolTransfer.FetchedKept` | src/sender.rs:168-222 | reading any part of what is asked for extends what is under way by exactly that stretch of the file |
| `ProtocolTransfer.SavedKept` | src/receiver.rs:282-299 | persisting any part of what is on offer extends what is persisted by exactly the next stretch of the file |
| `ProtocolUp.UpTells` | src/sender.rs:406-426 | every answer that reaches the sender, with any number of repeated ZRINITs among them, is taken without an error, keeps what holds, and takes the session on or says nothing new |
| `ProtocolSafety.RxTickKept` | src/receiver.rs:309-318 | a ZRINIT repeated by the timer keeps what holds, in whatever phase the sender is |
| `ProtocolSafety.ChosenKept` | src/receiver.rs:156-169 | accepting the file on offer from any offset keeps what holds |
| `ProtocolSafety.DeclinedKept` | src/receiver.rs:179-187 | and so does declining it |
| `ProtocolSafety.StepInv` | src/receiver.rs:433-527 | every step of the joined system keeps its invariant: deliveries, reads and writes of any size, events, the next file at any later time, timers of both ends, changes of the window, acceptance, damage |
| `ProtocolRuns.InvSafe` | src/receiver.rs:493-509 | in every state of the invariant: files closed are the files sent, from where they were accepted, in order; until the next file starts what is persisted is the beginning of the last; the receiver reports it complete only when all of it is persisted; its session ends only after the last file |
| `ProtocolRuns.EndToEndSafety` | src/receiver.rs:475-509 | the same of every state reachable from the start, for any files, set-up and corruptions, with timers firing at any time, in any interleaving |
| `ProtocolRuns.HastyMark` | src/receiver.rs:309-318 | the mark on which the next result depends is set exactly by a run on which the receiver's timer fires while it waits for data of which nothing is left |
| `ProtocolRuns.SenderReports` | src/sender.rs:444-458 | on every run without such a tick, a file the sender reports complete is closed at the receiver, and a session it ends is complete |
| `ProtocolFlow.FlowControl` | src/receiver.rs:79-90 | flow control, joined: on every run from the start, with damage, timers and new windows anywhere, while the receiver's own buffer length is not zero, at no point have more file bytes gone out since the last answer was taken than that buffer holds, and a ZDATA goes out only with nothing unanswered (section 9.5 of the ZMODEM specification) |
| `ProtocolFlow.FrameFitsBuffer` | src/receiver.rs:79-90 | so what one frame carries, from its ZDATA to its closing subpacket, fits the buffer the receiver was set up with |
| `ProtocolPolls.RxDoesAsPolled` | src/receiver.rs:335-358 | the receiver's caller in the joined system takes each step exactly when the poll asks for it: events, then wire bytes, then file bytes, then a decision |
| `ProtocolPolls.RxEventTold` | src/receiver.rs:335-346 | a started file is told with its name and size |
| `ProtocolPolls.TxDoesAsPolled` | src/sender.rs:305-326 | and the sender's: the event, then wire bytes, then a read of what is asked for |
| `ProtocolTimers.EarlyReport` | src/receiver.rs:309-318 | the converse: from every state of the invariant in which the timer can first fire that way, there is a run that starts with that tick and ends with a report that is wrong |
| `ProtocolTimers.EmptyFileReportedEarly` | src/sender.rs:444-458 | a run from the start, for any session that begins with an empty file, on which the sender reports a file the receiver has not closed |
| `ProtocolPieces.RxPiecesFed` | src/receiver.rs:197-249 | any bytes the receiver takes whole, cut anywhere, with its timer firing between the pieces and what it queues written out: they come to the same |
| `ProtocolPieces.TxPiecesFed` | src/sender.rs:232-259 | the same for the sender |
| `ProtocolPieces.FrameInPieces` | src/receiver.rs:197-249 | so every frame of the joined system may reach the receiver in pieces with timers between them |
| `ProtocolPieces.AnswerInPieces` | src/sender.rs:232-259 | and every answer the sender |
| `ProtocolPieces.HeaderInPieces` | src/receiver.rs:309-318 | for a header, what the timer puts out on the way is also what it puts out when it fires as often before the header arrives whole |
| `ProtocolLiveness.StepSucceeds` | src/sender.rs:332-381 | no call in a run is refused: nothing is malformed, out of turn or short of room |
| `ProtocolLiveness.Unstuck` | src/sender.rs:232-259 | short of the end some step can be taken, without a corruption, a tick or a new window |
| `ProtocolLiveness.StepLess` | src/receiver.rs:754-768 | every step decreases stages left, corruptions, ticks and window changes left, a rewind to come, or work left, in that order |
| `ProtocolLiveness.Finale` | src/receiver.rs:433-527 | any schedule comes to an end with both sides done |
| `ProtocolLiveness.Delivery` | src/sender.rs:168-222 | and then every file is closed at the receiver in order, whole unless its caller decided otherwise |
| `ProtocolLiveness.DeliveryOfRun` | src/sender.rs:168-222 | the same of every run, scheduled or not, after which no caller has anything to do and no frame can be delivered |
| `ProtocolLiveness.SomeSchedule` | src/sender.rs:305-326 | doing what the polls ask for, and else delivering a frame, is such a schedule |
| `ProtocolLiveness.NoEndlessRun` | src/receiver.rs:754-768 | no run goes on for ever, scheduled or not, without corruptions, ticks or window changes without end |

## Left out

- Transport, files, clocks and processes: all I/O is the caller's. A clock is the `Timeout` call, a disk the `FileWritten` call.
- Formatting, error texts, UTF-8 truncation of `String` and the bitflags machinery: no protocol content. `String` is a buffer of 256 bytes.
- Frame types the code does not act on (ZCRC, ZCHALLENGE, ZCOMMAND, Attn, CAN runs, XON/XOFF inside data) are handled as the code handles them, which is to ignore them.
- `write_all` of the buffer writer: nothing in the modelled code calls it.
- Integer widths: 32-bit positions are explicit everywhere; `usize` counters (the window, subpacket counts, cursors) are unbounded naturals, and the one-byte retry counter saturates as in the code.
- Receiver.SubmitWire: requires the invariant, so calling on after a fatal checksum or metadata error is not modelled; the code then indexes its trailer buffer past its end.
- Subpackets.RxCrc.Process: requires room in the trailer buffer; without it the code indexes past the end.
- HeaderReading.HeaderReader.Read: has no branch for a missing encoding, because the class invariant makes it unreachable.
- Receiver and sender buffers are values inside the original's structs and objects of their own here; `Separate` says that no two of them are the same, which the original has for free.
- SenderMachine.Sender.QueueZfile: is specified for an empty outgoing buffer, which both of its callers have made sure of; the original does not check again.
- The joined system: frames travel whole and undamaged except for data subpackets. A damaged header is answered with ZNAK (`ReceiverAnswers.DamagedHeaderAnswered`), which the sender passes over after the handshake (`SenderAnswers.HeedsExactly`), so that a session that loses one depends on what its callers do then. Arrival in pieces and timers between the pieces are covered by `ProtocolPieces`, line endings by `ProtocolDeliveries.EndingSkipped`.
- The joined system: at least one file is sent, the sender's caller finishes after the last, and neither caller aborts. Without a file the receiver never answers ZFIN, and a file skipped after `finish` leaves the sender waiting. The receiver's caller declines a file when it is asked, not in the middle of it.
- The joined system: at most ten corruptions in a row for one subpacket, which `Enabled` says; and for the end of a run, not for its safety, finitely many corruptions, ticks and window changes, which `budget` says.
- ReceiverSlicing.ChunkIndependence: is about schedules without errors; where a run breaks, the state at the break is the specified one but later draining is not compared. Calls other than draining are made with everything drained, as when the poll says that no work is pending.
- SenderSlicing.ChunkIndependence: is about the same kind of schedules.
