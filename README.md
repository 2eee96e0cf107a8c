# J-PET framework core in Dafny

This project models four pieces of the J-PET framework. J-PET is a PET scanner made of plastic scintillator strips. The four pieces are:

- **The HLD/TRB3 unpacker** (`JPetUnpackTask`, `JPetUnpackTaskTools`). A raw HLD file is treated as a sequence of bytes read through a stream cursor. The unpacker:
  - skips the 32-byte file header;
  - reads 32-byte record headers and 16-byte subheaders;
  - byte-swaps the payload words;
  - keeps the `size_t` size and padding bookkeeping, including its wrap-around;
  - splits each TDC sub-payload header into a word count and a network address;
  - decodes the 32-bit data words into epoch updates and edge times on channels, relative to the reference channel 0.
- **The GATE Monte-Carlo parser** (`JPetGateParser`, `JPetGateParserTools`):
  - maps GATE's sector/crystal numbering onto scintillator IDs;
  - tests electronics clock-window membership;
  - reconstructs hits;
  - applies the energy gate;
  - buffers raw and reconstructed hits per window and flushes them to the output collections.
- **The Geant4 Monte-Carlo parser** (`JPetGeantParser`):
  - keeps only events with exactly two hits, with an acceptance test on their reconstructed hits;
  - flushes either after every event or by an activity counter.
- **The hit record** (`JPetHit`): its setters, the three matrix signals with their "set" flags, `Clear`, `getSignal` and the `checkConsistency` rule.

Modules follow the source files:

| module | file |
|---|---|
| `UnpackTools` | `unpack_tools.dfy` |
| `UnpackTask` | `unpack_task.dfy` |
| `GateTools` | `gate_tools.dfy` |
| `GateParser` | `gate_parser.dfy` |
| `GeantParser` | `geant_parser.dfy` |
| `HitRecord` | `hit.dfy` |

How each kind of source code is modelled:

- **Pure helpers** are functions with lemmas.
- **Objects whose fields the source updates** are classes:
  - `Unpacker`;
  - `GateParser`;
  - `GeantParser`;
  - `Hit`.
- **Unsigned integers**:
  - `UInt_t` values are integers below 2^32;
  - `size_t` is a 64-bit unsigned integer, with explicit wrap-around (`Wrap`).
  - arithmetic in `UInt_t`, such as the plain data size `size - 16`, wraps at 2^32.
- **Unpacker times** are integer picoseconds: `epoch*10240000 + coarse*5000 - fine`, which is 1000 times the nanosecond formula of the source.
- **GATE and Geant4 times, energies and positions** are reals.

Three behaviours of the code that are easy to misread:

- **Corrupted entry size.** When the entry size wraps above its initial value, only the subheader loop of that record stops; the record loop goes on (`src/Tasks/JPetUnpackTask/JPetUnpackTask.cpp:227-231`). It is not fatal for the file.
- **GATE flush.** The GATE buffers are flushed only when a time fails the window test against the previous window number. An earlier time never flushes (`src/GateParser/JPetGateParser/JPetGateParser.cpp:227`). A mere change of window number is not enough.
- **Activity bound.** The Geant4 activity bound uses `fMinTime`, not the window width (`GeantParser/JPetGeantParser/JPetGeantParser.cpp:101`).

## Model

| member | source | states |
|---|---|---|
| UnpackTools.HdrSize | include/Tasks/JPetUnpackTask/JPetUnpackTaskTools.h:52 | the record header is 32 bytes |
| UnpackTools.SubHdrSize | include/Tasks/JPetUnpackTask/JPetUnpackTaskTools.h:53 | the subheader is 16 bytes |
| UnpackTools.ParseHdr | include/Tasks/JPetUnpackTask/JPetUnpackTaskTools.h:29-38 | the eight header fields are the eight little-endian 32-bit words of the 32 bytes read, in declaration order |
| UnpackTools.ParseSubHdr | include/Tasks/JPetUnpackTask/JPetUnpackTaskTools.h:40-45 | the four subheader fields are the four little-endian words of the 16 bytes read, in order |
| UnpackTools.HdrRoundTrip | include/Tasks/JPetUnpackTask/JPetUnpackTaskTools.h:29-38 | encoding a header's fields gives 32 bytes that parse back to the same header |
| UnpackTools.SubHdrRoundTrip | include/Tasks/JPetUnpackTask/JPetUnpackTaskTools.h:40-45 | encoding a subheader's fields gives 16 bytes that parse back to the same subheader |
| UnpackTools.WordsRoundTrip | src/Tasks/JPetUnpackTask/JPetUnpackTask.cpp:178-180 | reading words back from their byte encoding gives the same words, so a payload read into a word buffer loses nothing |
| UnpackTools.Align8 | include/Tasks/JPetUnpackTask/JPetUnpackTaskTools.h:55 | the result stays in size_t range |
| UnpackTools.Align8Zero | include/Tasks/JPetUnpackTask/JPetUnpackTaskTools.h:55 | align8(0) wraps around to 0 |
| UnpackTools.Align8Bounds | include/Tasks/JPetUnpackTask/JPetUnpackTaskTools.h:55 | for 1 <= i <= 2^64-8: the result is a multiple of 8, at least i, and less than i+8 |
| UnpackTools.Align8Top | include/Tasks/JPetUnpackTask/JPetUnpackTaskTools.h:55 | the last seven size_t values round up to 0 by wrap-around |
| UnpackTools.Align8Idempotent | include/Tasks/JPetUnpackTask/JPetUnpackTaskTools.h:55 | aligning twice equals aligning once |
| UnpackTools.DataSizeOf | src/Tasks/JPetUnpackTask/JPetUnpackTaskTools.cpp:186-188 | size minus 16: in size_t after the byte swap, in 32-bit UInt_t on the plain field (so then below 2^32) |
| UnpackTools.GetDataSize | src/Tasks/JPetUnpackTask/JPetUnpackTaskTools.cpp:184-191 | the data size of a subheader is in size_t range, and below 2^32 without the byte swap |
| UnpackTools.DataSizeCases | src/Tasks/JPetUnpackTask/JPetUnpackTaskTools.cpp:184-191 | a size of 16 or more gives size-16 on both paths; a smaller size wraps to 2^32+size-16 on the plain path and to 2^64+size-16 after the byte swap |
| UnpackTools.GetPaddedDataSize | include/Tasks/JPetUnpackTask/JPetUnpackTaskTools.h:56 | the padded data size is in size_t range (its alignment is `PaddingBounded`) |
| UnpackTools.PaddingBounded | include/Tasks/JPetUnpackTask/JPetUnpackTaskTools.h:56 | on the plain path always, and after the byte swap for a size field of at least 16: the padded size is a multiple of 8 and the padding after the payload is in [0, 8) |
| UnpackTools.DataLengthRoundsUp | include/Tasks/JPetUnpackTask/JPetUnpackTaskTools.h:58 | for fullSize >= 32, the data length is the number of 32-bit words after the header, rounded up |
| UnpackTools.DataLengthShortWraps | include/Tasks/JPetUnpackTask/JPetUnpackTaskTools.h:58 | a full size of 29..31 wraps the subtraction and yields a data length of 0 |
| UnpackTools.PaddedFullSizeBounds | include/Tasks/JPetUnpackTask/JPetUnpackTaskTools.h:57 | a non-zero full size rounds up to the next multiple of 8 (less than 8 more); 0 stays 0 |
| UnpackTools.ReverseHex | src/Tasks/JPetUnpackTask/JPetUnpackTaskTools.cpp:166-181 | byte k of the word moves to byte 3-k (intended behaviour) |
| UnpackTools.ReverseHexInvolution | src/Tasks/JPetUnpackTask/JPetUnpackTaskTools.cpp:166-181 | swapping twice restores every 32-bit word |
| UnpackTools.ReverseHexReadsBigEndian | src/Tasks/JPetUnpackTask/JPetUnpackTaskTools.cpp:166-181 | the swapped little-endian word of four bytes is the big-endian reading of those bytes |
| UnpackTools.ReverseHexAsWritten | src/Tasks/JPetUnpackTask/JPetUnpackTaskTools.cpp:168-180 | the signed-int mask-and-shift of the source, returned as size_t, stays in size_t range |
| UnpackTools.AsWrittenAgrees | src/Tasks/JPetUnpackTask/JPetUnpackTaskTools.cpp:168-180 | when neither the top bit nor bit 7 is set, the code as written gives the byte-swapped word |
| UnpackTools.AsWrittenTruncatedAgrees | src/Tasks/JPetUnpackTask/JPetUnpackTaskTools.cpp:168-180 | below 2^31 the result as written, truncated to 32 bits, is the byte-swapped word |
| UnpackTools.AsWrittenSignExtends | src/Tasks/JPetUnpackTask/JPetUnpackTaskTools.cpp:173-178 | 0x80000000 swaps to 0xffffffffffffff80 instead of 0x80, and two swaps do not restore the word |
| UnpackTools.ToHex | src/Tasks/JPetUnpackTask/JPetUnpackTaskTools.cpp:197-199 | the hex text of n is non-empty and made of lowercase hex digits |
| UnpackTools.ParseToHex | src/Tasks/JPetUnpackTask/JPetUnpackTaskTools.cpp:197-199 | parsing the hex text of n gives n back |
| UnpackTools.ToHexShort | src/Tasks/JPetUnpackTask/JPetUnpackTaskTools.cpp:197-201 | the hex text has at most four digits exactly when n < 0x10000 |
| UnpackTools.ParseHexLeadingZeros | src/Tasks/JPetUnpackTask/JPetUnpackTaskTools.cpp:194-201 | left-padding with '0' keeps a hex string's value |
| UnpackTools.PadHexRoundTrip | src/Tasks/JPetUnpackTask/JPetUnpackTaskTools.cpp:194-201 | "0000" with its tail replaced by the hex text succeeds iff n < 0x10000, and then gives four lowercase hex digits that parse back to n; otherwise `replace` throws |
| UnpackTools.HubAddressRoundTrip | src/Tasks/JPetUnpackTask/JPetUnpackTaskTools.cpp:193-202 | the same for the (optionally byte-swapped) hub address of a subheader |
| UnpackTask.EpochOf | src/Tasks/JPetUnpackTask/JPetUnpackTask.cpp:304 | the epoch is the low 28 bits |
| UnpackTask.ChannelOf | src/Tasks/JPetUnpackTask/JPetUnpackTask.cpp:312 | the channel is in 0..127 |
| UnpackTask.FineOf | src/Tasks/JPetUnpackTask/JPetUnpackTask.cpp:314 | the raw fine counter is in 0..1023 |
| UnpackTask.CoarseOf | src/Tasks/JPetUnpackTask/JPetUnpackTask.cpp:313 | the coarse counter is in 0..2047 |
| UnpackTask.TimeValue | src/Tasks/JPetUnpackTask/JPetUnpackTask.cpp:309-315 | a time word built from its fields is a 32-bit value |
| UnpackTask.TimeWordFields | src/Tasks/JPetUnpackTask/JPetUnpackTask.cpp:309-315 | header, channel, fine, edge bit and coarse read back exactly the fields a time word was built from |
| UnpackTask.EpochWordFields | src/Tasks/JPetUnpackTask/JPetUnpackTask.cpp:303-305 | an epoch word has header 3 and reads back its 28-bit counter |
| UnpackTask.TdcAddress | src/Tasks/JPetUnpackTask/JPetUnpackTask.cpp:252 | the TDC address is below 0x10000 |
| UnpackTask.TdcHeaderSplit | src/Tasks/JPetUnpackTask/JPetUnpackTask.cpp:250-252 | a TDC header is its internal size and address side by side |
| UnpackTask.TdcHeaderJoin | src/Tasks/JPetUnpackTask/JPetUnpackTask.cpp:250-252 | a size and a 16-bit address put side by side split back into the same size and address |
| UnpackTask.DecodeWord | src/Tasks/JPetUnpackTask/JPetUnpackTask.cpp:289-350 | only header-4 words emit; a word emits nothing, or one edge on the current channel, preceded by opening that channel when it was not already open |
| UnpackTask.EpochWordEffect | src/Tasks/JPetUnpackTask/JPetUnpackTask.cpp:303-305 | a header-3 word sets the epoch to its low 28 bits and changes nothing else |
| UnpackTask.OtherWordsInert | src/Tasks/JPetUnpackTask/JPetUnpackTask.cpp:348-349 | any header other than 3 and 4 changes nothing and emits nothing |
| UnpackTask.TenfoldNeverDropped | src/Tasks/JPetUnpackTask/JPetUnpackTask.cpp:318-324 | without a correction the fine value is ten times the counter, which is never 0x3ff, so the drop test never fires |
| UnpackTask.OverflowDropped | src/Tasks/JPetUnpackTask/JPetUnpackTask.cpp:324 | a time word whose corrected fine value is 0x3ff emits nothing |
| UnpackTask.ReferenceWordEffect | src/Tasks/JPetUnpackTask/JPetUnpackTask.cpp:328-330 | a channel-0 word emits nothing, records a reference and sets the reference time to its full time |
| UnpackTask.NoEdgeBeforeReference | src/Tasks/JPetUnpackTask/JPetUnpackTask.cpp:331-332 | before any reference, a word on a non-zero channel emits nothing |
| UnpackTask.EdgeAfterReference | src/Tasks/JPetUnpackTask/JPetUnpackTask.cpp:331-344 | after a reference: a channel opens when it is the first hit or the channel changed; a rising edge is a lead at fullTime-refTime; a falling edge is a trail that also subtracts the TOT bin at channel+offset+1 |
| UnpackTask.TdcHeaderInert | src/Tasks/JPetUnpackTask/JPetUnpackTask.cpp:250-289 | a TDC header word sent through the word decoder (internal size < 0x6000) has header below 3 and changes nothing |
| UnpackTask.ReferenceThenEdge | src/Tasks/JPetUnpackTask/JPetUnpackTask.cpp:318-341 | reference then rising edge on channel 5 yields the channel open and a lead at the time difference |
| UnpackTask.EdgeThenReference | src/Tasks/JPetUnpackTask/JPetUnpackTask.cpp:328-345 | the same two words in the opposite order yield nothing |
| UnpackTask.StepKeepsInv | src/Tasks/JPetUnpackTask/JPetUnpackTask.cpp:309-343 | one word keeps the decoder invariant: every edge sits on the channel opened last, and that channel is the current one unless a first hit is pending |
| UnpackTask.DecodeWordsKeepsInv | src/Tasks/JPetUnpackTask/JPetUnpackTask.cpp:265-267 | the invariant holds after any sequence of words |
| UnpackTask.BlockAttributed | src/Tasks/JPetUnpackTask/JPetUnpackTask.cpp:263-267 | a whole sub-payload decoded from the initial state keeps every edge on its open channel |
| UnpackTask.TdcBlocksAttributed | src/Tasks/JPetUnpackTask/JPetUnpackTask.cpp:197-200 | the whole sub-payload loop keeps every edge on its open channel |
| UnpackTask.TdcBlocksStopsOnWrap | src/Tasks/JPetUnpackTask/JPetUnpackTask.cpp:245-248 | in the model's sub-payload loop a counter wrapped above the initial size ends the loop with no more events |
| UnpackTask.WrappedCounterSpins | src/Tasks/JPetUnpackTask/JPetUnpackTask.cpp:197-200 | as written, a counter wrapped above the initial size stays the same and non-zero for any number of turns, so the loop never ends |
| UnpackTask.OverlongBlockSpinsWitness | src/Tasks/JPetUnpackTask/JPetUnpackTask.cpp:197-200 | an 8-byte payload whose first block claims 12 bytes wraps the counter to 2^64-4, which then never moves |
| UnpackTask.OverlongBlockDetected | src/Tasks/JPetUnpackTask/JPetUnpackTask.cpp:245-248 | the wrapped byte counter exceeds the initial size exactly when a block claims more bytes than remain |
| UnpackTask.PayloadKeepsAttributed | src/Tasks/JPetUnpackTask/JPetUnpackTask.cpp:190-204 | appending a subheader payload's events keeps every edge on its open channel |
| UnpackTask.SwappedValues | src/Tasks/JPetUnpackTask/JPetUnpackTask.cpp:250 | one byte-swapped value per payload word |
| UnpackTask.SubRecordSizes | src/Tasks/JPetUnpackTask/JPetUnpackTask.cpp:221-240 | the entry size left after one subheader is in size_t range |
| UnpackTask.SubRecordStops | src/Tasks/JPetUnpackTask/JPetUnpackTask.cpp:221-240 | the subheader loop goes on iff the entry has not wrapped above its initial size and more than 48 bytes (outside the full setup), or more than 176 bytes after padding (in it), remain |
| UnpackTask.EntryWrapDetected | src/Tasks/JPetUnpackTask/JPetUnpackTask.cpp:221-231 | the entry size wraps above its initial value exactly when a subheader claims more than remains |
| UnpackTask.UnsetFileSizeStops | src/Tasks/JPetUnpackTask/JPetUnpackTask.cpp:166-168 | with the file size left at 0, the record loop stops after every decoded record |
| UnpackTask.ContinuesOnlyWithMargin | src/Tasks/JPetUnpackTask/JPetUnpackTask.cpp:166-168 | with the real file size, the loop goes on iff at least 500 bytes remain, the stream is not at its end, and the entry budget is not reached |
| UnpackTask.Int32Of | src/Tasks/JPetUnpackTask/JPetUnpackTask.cpp:166-167 | the `(int)` cast of a position lies in the 32-bit signed range and keeps positions below 2^31 |
| UnpackTask.AsWrittenTestBelow2GiB | src/Tasks/JPetUnpackTask/JPetUnpackTask.cpp:166-168 | below 2^31 the end-of-loop test with the `(int)` cast agrees with the test on exact positions |
| UnpackTask.LargeFileIgnoresPosition | src/Tasks/JPetUnpackTask/JPetUnpackTask.cpp:166-168 | for a file of 2^31+500 bytes or more, the test as written goes on iff the stream is not at end-of-file and the budget is not reached: the position never matters |
| UnpackTask.LargeFileWitness | src/Tasks/JPetUnpackTask/JPetUnpackTask.cpp:166-168 | a 3 GiB file read exactly to its end: the test as written goes on, the test on exact positions stops |
| UnpackTask.Skipped | src/Tasks/JPetUnpackTask/JPetUnpackTask.cpp:218-220 | `ignore(n)` on values: only the position and end-of-file change; nothing at end-of-file, otherwise up to n bytes, end-of-file only on a short skip |
| UnpackTask.SubRecordStep | src/Tasks/JPetUnpackTask/JPetUnpackTask.cpp:172-241 | performTwo on values: never moves back, advances whenever it continues, keeps the initial entry size and the entry count |
| UnpackTask.SubRecordStepCases | src/Tasks/JPetUnpackTask/JPetUnpackTask.cpp:172-241 | a short read of subheader or payload ends the stream with no events; otherwise exactly the payload's events are appended, the stream stands past payload and padding (or at the end), and the verdict and entry size are those of the size bookkeeping |
| UnpackTask.SubLoop | src/Tasks/JPetUnpackTask/JPetUnpackTask.cpp:150-152 | the subheader loop of a record never moves back and keeps the initial entry size and the entry count |
| UnpackTask.RecordEnd | src/Tasks/JPetUnpackTask/JPetUnpackTask.cpp:154-169 | the record counts once, the events and entry sizes are unchanged, the stream only moves forward within the file, and the verdict is the end-of-loop test on the new position |
| UnpackTask.RecordStep | src/Tasks/JPetUnpackTask/JPetUnpackTask.cpp:129-170 | performOne on values: never moves back, advances whenever it continues, counts at most one entry, and never continues right after counting the last entry of the budget |
| UnpackTask.RecordStepCases | src/Tasks/JPetUnpackTask/JPetUnpackTask.cpp:129-170 | a short header read ends the stream and the loop; a 32-byte record is stepped over uncounted and the loop goes on; any other record sets the initial entry size from its header, counts once and continues by the end-of-loop test |
| UnpackTask.RecordLoop | src/Tasks/JPetUnpackTask/JPetUnpackTask.cpp:86-89 | the record loop never moves the stream back and stays within the file |
| UnpackTask.Opened | src/Tasks/JPetUnpackTask/JPetUnpackTask.cpp:75-78 | exec starts the record loop past the 32-byte file header (end-of-file for a shorter file), with no entry analysed and nothing else changed |
| UnpackTask.SubRecordStepAttributed | src/Tasks/JPetUnpackTask/JPetUnpackTask.cpp:172-241 | one subheader keeps every edge on the channel opened last |
| UnpackTask.SubLoopAttributed | src/Tasks/JPetUnpackTask/JPetUnpackTask.cpp:150-152 | so does the subheader loop of a record |
| UnpackTask.RecordLoopAttributed | src/Tasks/JPetUnpackTask/JPetUnpackTask.cpp:86-89 | so does the record loop over a whole file |
| UnpackTask.RecordLoopBudget | src/Tasks/JPetUnpackTask/JPetUnpackTask.cpp:168 | started below the entry budget, the record loop analyses at most that many entries |
| UnpackTask.RecordLoopAtEof | src/Tasks/JPetUnpackTask/JPetUnpackTask.cpp:167 | once the stream is at its end the record loop changes nothing |
| UnpackTask.DecodeBlock | src/Tasks/JPetUnpackTask/JPetUnpackTask.cpp:263-267 | the word loop over one sub-payload produces exactly the events of decoding its words in order from a fresh decoder |
| UnpackTask.Unpacker.constructor | include/Tasks/JPetUnpackTask/JPetUnpackTask.h:51-64 | options stored, stream at 0, counters 0, no events, file size set to the file's length |
| UnpackTask.Unpacker.Read | src/Tasks/JPetUnpackTask/JPetUnpackTask.cpp:137 | a full read returns the next n bytes and advances; a short read sets end-of-file at the end |
| UnpackTask.Unpacker.Ignore | src/Tasks/JPetUnpackTask/JPetUnpackTask.cpp:78 | skips up to n bytes; end-of-file is set only when fewer remained |
| UnpackTask.Unpacker.PerformThree | src/Tasks/JPetUnpackTask/JPetUnpackTask.cpp:243-280 | stops on a wrapped counter; otherwise moves past internalSize+1 words, takes their bytes off the counter whether or not the address is known, and appends exactly the block's events |
| UnpackTask.Unpacker.DecodePayload | src/Tasks/JPetUnpackTask/JPetUnpackTask.cpp:190-204 | appends exactly the payload's events: nothing when the first word is zero |
| UnpackTask.Unpacker.SubPayloadLoop | src/Tasks/JPetUnpackTask/JPetUnpackTask.cpp:197-200 | the sub-payload loop appends exactly the events of the blocks until the counter is zero or wraps |
| UnpackTask.Unpacker.ReadSubHdr | src/Tasks/JPetUnpackTask/JPetUnpackTask.cpp:174-187 | reads 16 bytes and returns the announced data size and padding |
| UnpackTask.Unpacker.ReadPayload | src/Tasks/JPetUnpackTask/JPetUnpackTask.cpp:178-204 | reads the payload and appends exactly its events; a short read appends nothing |
| UnpackTask.Unpacker.ReduceEntrySize | src/Tasks/JPetUnpackTask/JPetUnpackTask.cpp:218-240 | the entry size and verdict are those of the size bookkeeping |
| UnpackTask.Unpacker.PerformTwo | src/Tasks/JPetUnpackTask/JPetUnpackTask.cpp:172-241 | the new position, end-of-file state, entry size and events and the verdict are exactly those of `SubRecordStep`, so `SubRecordStepAttributed` keeps edges attributed |
| UnpackTask.Unpacker.SubheaderLoop | src/Tasks/JPetUnpackTask/JPetUnpackTask.cpp:150-152 | the state after the subheader loop is exactly `SubLoop` of the state before |
| UnpackTask.Unpacker.FinishRecord | src/Tasks/JPetUnpackTask/JPetUnpackTask.cpp:154-169 | the new position, end-of-file state and entry count and the verdict are exactly those of `RecordEnd` |
| UnpackTask.Unpacker.PerformOne | src/Tasks/JPetUnpackTask/JPetUnpackTask.cpp:129-170 | the new state (position, end-of-file, entry sizes, entry count, events) and the verdict are exactly those of `RecordStep`, so the lemmas about `RecordStep` apply to it |
| UnpackTask.Unpacker.Exec | src/Tasks/JPetUnpackTask/JPetUnpackTask.cpp:66-98 | a non-HLD input is refused and nothing changes; for an HLD input the final state is exactly `RecordLoop` from `Opened`, with the file header skipped, at most the budget of entries analysed and edges attributed |
| GateTools.MapScintillatorVectors | tests/GateParser/JPetGateParser/JPetGateParserToolsTest.cpp:26-33 | (0,0)→266, (5,12)→213, (6,1)→501, (7,0)→487 |
| GateTools.MapScintillatorConsecutive | src/GateParser/JPetGateParser/JPetGateParserTools.cpp:27-34 | consecutive crystals of a sector map to consecutive IDs |
| GateTools.SectorCrystalOf | src/GateParser/JPetGateParser/JPetGateParserTools.cpp:27-34 | an inverse of the mapping lands on the 24 x 13 grid |
| GateTools.MapScintillatorOnGrid | src/GateParser/JPetGateParser/JPetGateParserTools.cpp:27-34 | every strip of the grid maps into [201, 513), and the inverse recovers the strip |
| GateTools.SectorCrystalOfMaps | src/GateParser/JPetGateParser/JPetGateParserTools.cpp:27-34 | every ID in [201, 513) is the image of the strip the inverse names |
| GateTools.MapScintillatorInjective | src/GateParser/JPetGateParser/JPetGateParserTools.cpp:27-34 | no two strips of the grid share an ID |
| GateTools.WindowIndex | src/GateParser/JPetGateParser/JPetGateParser.cpp:233 | for t >= 0 the window number n satisfies n*W <= t < n*W + W (it is floor(t/W)) |
| GateTools.InOwnWindow | src/GateParser/JPetGateParser/JPetGateParser.cpp:233-235 | a time always passes the window test for its own window number |
| GateTools.OffsetInWindow | src/GateParser/JPetGateParser/JPetGateParser.cpp:237 | the time within the window lies in [0, W) for t >= 0 |
| GateTools.InWindowIff | src/GateParser/JPetGateParser/JPetGateParserTools.cpp:40-48 | for t >= 0 the test for window n passes iff the time's own window is n or earlier |
| GateTools.EarlierInWindow | src/GateParser/JPetGateParser/JPetGateParserTools.cpp:42-43 | a time before the start of window n passes the test for n |
| GateTools.WindowEndExcluded | src/GateParser/JPetGateParser/JPetGateParserTools.cpp:42-43 | (n+1)*W fails the test for n and passes the one for n+1 |
| GateTools.ReconstructHitFields | src/GateParser/JPetGateParser/JPetGateParserTools.cpp:50-59 | the reconstructed hit keeps the energy and sits at the scintillator centre in X/Y |
| GateTools.ReconstructIgnoresRawXY | src/GateParser/JPetGateParser/JPetGateParserTools.cpp:50-59 | the simulated X/Y never affect the reconstructed hit |
| GateTools.AcceptedIff | src/GateParser/JPetGateParser/JPetGateParserTools.cpp:61 | a reconstructed hit is accepted iff the simulated energy is at least the threshold; the threshold itself is accepted |
| GateParser.RawHitOf | src/GateParser/JPetGateParser/JPetGateParser.cpp:237-251 | the raw hit has the mapped scintillator, the time within the window, energy in keV (x1000) and positions in cm (/10) |
| GateParser.PairedAppend | src/GateParser/JPetGateParser/JPetGateParser.cpp:257-258 | appending paired raw/reco buffers keeps them paired |
| GateParser.FlushIff | src/GateParser/JPetGateParser/JPetGateParser.cpp:227-232 | for t >= 0 a flush happens iff something is buffered and the time lies in a later window |
| GateParser.EarlierNeverFlushes | src/GateParser/JPetGateParser/JPetGateParser.cpp:227 | an interaction before the current window's start never flushes |
| GateParser.GateParser.constructor | include/GateParser/JPetGateParser/JPetGateParser.h:45-56 | window 0, everything zero, empty buffers and outputs, options stored |
| GateParser.GateParser.Exec | src/GateParser/JPetGateParser/JPetGateParser.cpp:219-269 | other entries change nothing; a GATE entry sets the ps time and window number floor(t/W), flushes the old buffers exactly on the flush condition, and then buffers the raw/reco pair iff it passes the gate; always succeeds |
| GateParser.GateParser.FlushIfOutside | src/GateParser/JPetGateParser/JPetGateParser.cpp:227-232 | the buffers move to the outputs and are emptied exactly when the flush condition holds |
| GateParser.GateParser.Store | src/GateParser/JPetGateParser/JPetGateParser.cpp:235-260 | unit conversion, then the raw and reco hits are appended together iff accepted |
| GateParser.GateParser.SaveHits | src/GateParser/JPetGateParser/JPetGateParser.cpp:278-308 | all raw hits go to the MC output, then all reco hits to the hit output, in buffer order; both buffers end empty |
| GateParser.GateParser.Terminate | src/GateParser/JPetGateParser/JPetGateParser.cpp:271-276 | reports success and flushes nothing |
| GeantParser.OnlyTwoHitEvents | GeantParser/JPetGeantParser/JPetGeantParser.cpp:141 | an event without exactly two hits adds nothing and reconstructs no 2γ/3γ; a two-hit event adds both MC hits |
| GeantParser.EventRecHitsAccepted | GeantParser/JPetGeantParser/JPetGeantParser.cpp:166-179 | every reconstructed hit added passes the test, and there are never more than MC hits |
| GeantParser.EventRecHitsExact | GeantParser/JPetGeantParser/JPetGeantParser.cpp:144-179 | each hit of a two-hit event adds its reconstructed hit iff it passes the test, first before second |
| GeantParser.ActivityFlushIff | GeantParser/JPetGeantParser/JPetGeantParser.cpp:101 | counter i exceeds the bound iff it exceeds the bound's whole part |
| GeantParser.BufferedAppend | GeantParser/JPetGeantParser/JPetGeantParser.cpp:144-174 | appending buffered hits keeps them buffered (accepted, MC hits in pairs) |
| GeantParser.EventBuffered | GeantParser/JPetGeantParser/JPetGeantParser.cpp:141-180 | what one event adds satisfies the buffer invariant |
| GeantParser.GeantParser.ActivityLimit | GeantParser/JPetGeantParser/JPetGeantParser.cpp:101 | the bound abs(minTime*activity*1e-6) is non-negative |
| GeantParser.GeantParser.constructor | GeantParser/JPetGeantParser/JPetGeantParser.cpp:94-112 | options stored, counter 0, buffers and outputs empty |
| GeantParser.GeantParser.Exec | GeantParser/JPetGeantParser/JPetGeantParser.cpp:94-112 | non-pack input returns false and changes nothing; a pack is buffered, then flushed in single-event mode or when the counter exceeds the bound (reset to 0), else the counter grows by one |
| GeantParser.GeantParser.ProcessMCEvent | GeantParser/JPetGeantParser/JPetGeantParser.cpp:121-200 | appends exactly the event's MC and accepted reco hits; isRec2g/isRec3g are the conjunctions of the saved flags |
| GeantParser.GeantParser.SaveHits | GeantParser/JPetGeantParser/JPetGeantParser.cpp:268-281 | all reco hits then all MC hits go out in buffer order; buffers end empty |
| GeantParser.GeantParser.Terminate | GeantParser/JPetGeantParser/JPetGeantParser.cpp:115-119 | reports success and flushes nothing |
| HitRecord.SignalForSide | src/DataObjects/JPetHit/JPetHit.cpp:144-149 | side A gives signal A, side B gives signal B, WLS gives the WLS signal (intended) |
| HitRecord.SideBAsWrittenIsA | src/DataObjects/JPetHit/JPetHit.cpp:147 | as written, side B returns signal A, which differs from the intended result whenever the signals differ; sides A and WLS agree |
| HitRecord.SideBAsWrittenWitness | src/DataObjects/JPetHit/JPetHit.cpp:147 | a hit with matrices "A" and "B": getSignal(SideB) has matrix "A" as written |
| HitRecord.Hit.constructor | src/DataObjects/JPetHit/JPetHit.cpp:22 | flag Unknown, all numbers zero, no signal set, no references |
| HitRecord.Hit.Full | src/DataObjects/JPetHit/JPetHit.cpp:27-41 | all parts stored, all three signals marked set, flag Unknown |
| HitRecord.Hit.CheckConsistency | src/DataObjects/JPetHit/JPetHit.cpp:340-360 | passes when any signal is unset; with all set, passes iff no signal is null and A and B come from matrices of different types |
| HitRecord.Hit.GetSignal | src/DataObjects/JPetHit/JPetHit.cpp:144-149 | the signal of the requested side (intended) |
| HitRecord.Hit.SetRecoFlag | src/DataObjects/JPetHit/JPetHit.cpp:228-231 | sets only the flag |
| HitRecord.Hit.SetEnergy | src/DataObjects/JPetHit/JPetHit.cpp:236-239 | sets only the energy |
| HitRecord.Hit.SetQualityOfEnergy | src/DataObjects/JPetHit/JPetHit.cpp:244-247 | sets only its field |
| HitRecord.Hit.SetTime | src/DataObjects/JPetHit/JPetHit.cpp:252-255 | sets only the time |
| HitRecord.Hit.SetQualityOfTime | src/DataObjects/JPetHit/JPetHit.cpp:260-263 | sets only its field |
| HitRecord.Hit.SetTimeDiff | src/DataObjects/JPetHit/JPetHit.cpp:268-271 | sets only its field |
| HitRecord.Hit.SetQualityOfTimeDiff | src/DataObjects/JPetHit/JPetHit.cpp:276-279 | sets only its field |
| HitRecord.Hit.SetPosX | src/DataObjects/JPetHit/JPetHit.cpp:284-287 | changes only the X coordinate |
| HitRecord.Hit.SetPosY | src/DataObjects/JPetHit/JPetHit.cpp:292-295 | changes only the Y coordinate |
| HitRecord.Hit.SetPosZ | src/DataObjects/JPetHit/JPetHit.cpp:300-303 | changes only the Z coordinate |
| HitRecord.Hit.SetPos | src/DataObjects/JPetHit/JPetHit.cpp:308-311 | sets the whole position |
| HitRecord.Hit.SetScin | src/DataObjects/JPetHit/JPetHit.cpp:316-319 | sets only the scintillator reference |
| HitRecord.Hit.SetWLS | src/DataObjects/JPetHit/JPetHit.cpp:324-327 | sets only the WLS reference |
| HitRecord.Hit.SetSignals | src/DataObjects/JPetHit/JPetHit.cpp:365-375 | stores all three signals and marks all set; consistency is then decided by the signals alone |
| HitRecord.Hit.SetSignalA | src/DataObjects/JPetHit/JPetHit.cpp:380-384 | stores signal A and sets only its flag |
| HitRecord.Hit.SetSignalB | src/DataObjects/JPetHit/JPetHit.cpp:389-393 | stores signal B and sets only its flag |
| HitRecord.Hit.SetSignalWLS | src/DataObjects/JPetHit/JPetHit.cpp:398-402 | stores the WLS signal and sets only its flag; replacing a set WLS signal by one of the same null-ness never changes the verdict |
| HitRecord.Hit.Clear | src/DataObjects/JPetHit/JPetHit.cpp:407-424 | zeros numbers and position, resets and unsets the signals, drops references, keeps the flag; the result is consistent |
| HitRecord.DefaultSignalsInconsistent | src/DataObjects/JPetHit/JPetHit.cpp:351-357 | a hit whose A and B signals are both default ones (no matrix) fails the check |

## Left out

### Unpacker (JPetUnpackTask, JPetUnpackTaskTools)

Deviations from the unfinished code, each modelled as its evident intent:

- **Decoder state.** The decoder state (epoch, channel, reference time, first-hit flag) is threaded through the words of one TDC sub-payload and starts fresh for each. As written, those variables are re-declared inside `performFour` for every word.
- **Byte counter.** `performThree` decrements the caller's byte counter, as its loop intends. As written it receives the counter by value, so the loop at `JPetUnpackTask.cpp:198-200` would never end.
- **Skip cursor.** The cursor always skips the sub-payload of an unknown TDC address. As written it does so only in debug mode, which is on by default (`JPetUnpackTask.h:52`).
- **Short reads.** A read past the end of the file stops the record and subheader loops. As written the stale header would be reused.
- **File size.** The file size is set to the file's length in `Unpacker.constructor`. As written it stays 0; see Findings.
- **Full time.** The full time is exact integer picoseconds. The `int` overflow of `epoch << 11` and the double arithmetic of the source are not modelled.

Inputs and parameters:

- **`areBytesToBeInverted`** has no body in the repository, so `doReverseHex` is an input.
- **`entriesToAnalyze`** is uninitialised in the source, so it is a constructor parameter.
- **`tdcOffsets`** is a constructor parameter; the parameter bank lookup is not part of this model.
- **Calibration and TOT histograms.** `getTOTCalibHist`, `getTDCCalibHists` and the calibration loading in `init` read ROOT files. They are replaced by the `Calibration` parameter: per-channel functions and a TOT function.
- **The output event.** `AddTDCChannel`/`AddLead`/`AddTrail` on the output event are modelled as a sequence of `TdcEvent`s.

Not modelled:

- **The TDC header word is itself decoded.** The first word of every sub-payload goes through the word decoder, as written. `TdcHeaderInert` shows that it has no effect whenever its internal size is below 0x6000; larger headers are not treated specially.
- **Time windows.** `unpackAllTimeSlots`, `saveTimeWindow`, `terminate` and the time-window output are not modelled; their helpers are not part of this model.
- **Failing to open the file.** Opening the file always succeeds.
- **Logging.** Debug and error logging is left out.
- `getDataLength` and `getPaddedFullSize` are not on the decoding path; they are modelled with lemmas only.

Weaker contract:

- UnpackTask.Unpacker.PerformThree: a block that claims more words than the payload holds is cut off at the payload's last word, and a header position past the payload stops the loop. As written the word loop reads past the end of the `new UInt_t[]` buffer, which C++ leaves undefined.
- UnpackTask.BlockEvents: decodes the same truncated block as `PerformThree`, for the same reason.
- UnpackTask.DecodeBlock: decodes each word of a block once, in order. As written, `while(is > 0) performFour();` (`JPetUnpackTask.cpp:263-265`) never decrements `is` and passes no data pointer, so it would not terminate; the model takes the evident intent.
- UnpackTask.Unpacker.SubPayloadLoop: stops when `performThree` reports a wrapped counter and when the payload's words run out. As written, `while(dataSize > 0)` (`JPetUnpackTask.cpp:198-200`) reads neither, so a wrapped counter spins forever (see Findings; `WrappedCounterSpins`).
- UnpackTask.TdcBlocks: the same stop rule as `SubPayloadLoop`, which it specifies.
- UnpackTask.ContinuesOnlyWithMargin: states the end-of-loop test on exact stream positions, as `RecordStep` uses it. As written both position tests cast `tellg()` to `int`, so for files of 2 GiB and more they stop working (see Findings; `RecordLoopContinuesAsWritten`, `LargeFileIgnoresPosition`).

### GATE parser (JPetGateParser, JPetGateParserTools)

- **Floating point.** The double/float rounding of the source is not modelled; values are exact reals.
- **Negative times.** A negative time gets window 0. The `unsigned long long` conversion of the source is undefined there, and its range limit is not modelled.
- **Options.** Option parsing in `init`, histogram booking and the default-smearing setup are replaced by constructor parameters. `clockWindowTime > 0` is required.
- **Parametrizer.** `JPetHitExperimentalParametrizer` is abstract: two smearing functions.
- **Randomness.** `setSeedTogRandom` is left out, since it uses the global random generator.
- **Parameter bank.** `paramBank.getScin` is a total function from IDs to scintillators.
- **Histograms.** Histogram filling in `saveHits` is left out.
- **Second window test.** The second window test in `exec` always passes, by `InOwnWindow`. The model keeps the branch.
- **Energy smearing.** The energy smearing options have no effect in the modelled `reconstructHit`, which copies the energy.

### Geant4 parser (JPetGeantParser)

- **Tools helpers.** The `JPetGeantParserTools` helpers are not part of this model. They enter as function fields of `Tools`: `createJPetMCHit`, `reconstructHit`, `isHitReconstructed` and `identifyRecoHits`, where `identifyRecoHits` is reduced to the saved flags.
- **Time shift.** The random `timeShift` drawn by `Uniform(fMinTime, fMaxTime)` is a parameter of `Exec`.
- **Not modelled:**
  - the annihilation-point computation and histograms;
  - the efficiency histograms and the energies `identifyRecoHits` records;
  - the `fZPosResMap` file read: the map is a parameter, and an absent key reads as 0.0, as `operator[]` does, without inserting it;
  - the generator flags of the event information.
- **Options.** The defaults of the options are not part of this model; they are constructor parameters.

### Hit record (JPetHit)

- **Getters.** The getters are plain field reads; they have no members of their own.
- **Unmodelled getters.** `getPos(int)`, `getScin`/`getWLS` on a missing reference, and `isSignal*Set` are not modelled.
- **Signals.** A signal is reduced to whether it is a null object and the type of its matrix. A default-constructed signal has no matrix, modelled as type "".
- **References.** Scintillator and WLS references are optional IDs.
- **Logging.** Error logging in the constructor and in `checkConsistency` is left out. Neither changes the hit.
- **setSignals' closing check.** The trailing consistency check in `setSignals` only returns early from the end of the method, so it has no effect. The model leaves it out.

## Findings

| source | as written | input that shows it | evidently intended | confidence | as-written member | corrected member |
|---|---|---|---|---|---|---|
| src/Tasks/JPetUnpackTask/JPetUnpackTaskTools.cpp:168-180 | the masks are held in signed `int`, so `d >>= 24` sign-extends and the `size_t` result is sign-extended | n = 0x80000000 gives 0xffffffffffffff80, and swapping again does not restore n | swap the four bytes of an unsigned word, giving 0x00000080 | not executed | UnpackTools.AsWrittenSignExtends | UnpackTools.ReverseHexInvolution |
| src/Tasks/JPetUnpackTask/JPetUnpackTask.cpp:166-167 | `fFileSize` is initialised to 0 and never assigned | any file: after the first decoded record `0 - pos < 500`, so the record loop stops | compare against the length of the HLD file | not executed | UnpackTask.UnsetFileSizeStops | UnpackTask.ContinuesOnlyWithMargin |
| src/Tasks/JPetUnpackTask/JPetUnpackTask.cpp:166-167 | both position tests cast `tellg()` to `int`, while `fFileSize` is a `long` | a 3 GiB file read exactly to its end without end-of-file: the cast position is -2^30, so neither test ends the loop | compare the full stream position with the file size | not executed | UnpackTask.LargeFileWitness | UnpackTask.ContinuesOnlyWithMargin |
| src/Tasks/JPetUnpackTask/JPetUnpackTask.cpp:198-200 | `while(dataSize > 0)` ignores the verdict of `performThree`, which leaves a wrapped counter untouched | an 8-byte payload whose first TDC block claims 12 bytes: the counter wraps to 2^64-4 and then never changes | leave the loop when `performThree` reports a wrapped counter | not executed | UnpackTask.OverlongBlockSpinsWitness | UnpackTask.TdcBlocksStopsOnWrap |
| src/DataObjects/JPetHit/JPetHit.cpp:147 | `getSignal(SideB)` returns `fSignalA` | a hit whose side-A signal has matrix "A" and whose side-B signal has matrix "B": side B yields matrix "A" | return `fSignalB` for side B | not executed | HitRecord.SideBAsWrittenWitness | HitRecord.Hit.GetSignal |
