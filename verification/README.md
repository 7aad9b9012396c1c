# A verified model of h3

This project models the HTTP/3 library h3 and its QPACK implementation, and proves what the two ends of a
connection can rely on: that a decoder rebuilds exactly the fields an encoder was given, that frames are read the
same however a stream is cut, and that shutdown, errors and cancelled writes leave both ends with one story.

`dafny verify dfyconfig.toml` checks everything.

## How it is organised

| part | files | main results |
|---|---|---|
| Octets and integers | `Octets`, `Bits`, `PrefixInt`, `VarInts` | round trips from every length of encoding, strict prefixes never parse, no input overflows |
| Huffman code | `HuffmanTables`, `HuffmanAgreement`, `HuffmanTree`, `Huffman`, `HuffmanExact`, `PrefixString` | code table and decoder tables agree symbol by symbol and entry by entry; round trip; exactly which octets decode, and to what |
| QPACK wire format | `StaticTable`, `FieldLines`, `HeaderPrefix`, `Instructions`, `QpackErrors` | round trips; exactly when a Required Insert Count is read back |
| Stateless codec | `Stateless` | `Stateless.AnyPeerDecodes`, `Stateless.StatelessRoundTrip` |
| Dynamic table | `AddressSpace`, `TableModel`, `Bookkeeping`, `DynamicTable`, `TableEncoder` | indexes refine a scan, reference counts are conserved, eviction is minimal and spares tracked entries |
| Encoder and decoder | `Sections`, `Encoder`, `Decoder`, `EncoderStream` | one block means its fields; exactly which cuts of the encoder stream are accepted, and that they all give one table |
| Runs of QPACK | `QpackRun`, `EncoderSession`, `PrematureRun` | `QpackRun.OutstandingDecodes`, `QpackRun.ReplicaAgreement`, `EncoderSession.InstructionAgreement` |
| Frames | `Settings`, `Frames`, `BufLists`, `FrameReader`, `Chunking` | `Chunking.FramesArrive`, `Chunking.CutIndependence`, `Frames.IntegerFrameExtent` |
| Connections | `StreamIds`, `Shutdown`, `ConnectionErrors`, `SendStreams` | `Shutdown.GoawayAgreement`, `Shutdown.GrantedThenTurnedAway`, `Shutdown.DrainedBeforeEnd`, `ConnectionErrors.FirstErrorAgreement`, `SendStreams.WritesIntact` |

Code that changes state in place is a class (`DynamicTable`, `TableEncoder`, `Encoder`, `Decoder`, `HuffmanEncoder`,
`BufList`, `Cursor`, `FrameStream`, `Settings`, `WriteBuf`, `SendStream`, `Connection`, `Driver`, `SharedState`).
Each method is proved against functions and relations over values, and the theorems are about those. Protocols are
step systems over every interleaving; `EncoderSession.Session` shows that every call of the encoder class is a step of
the QPACK runs, so that the guarantees about runs are guarantees about the class.

`QpackRun.OutstandingDecodes` is the central theorem: at any point of any run, a block that is still tracked decodes to
exactly its fields, octet by octet, on every decoder that has consumed some prefix of the instruction stream with the
insertions the block requires; `QpackRun.OutstandingDecodesFromStream` says it for a decoder that has read any number of
octets of that stream. `QpackRun.ReplicaAgreement` and `EncoderSession.InstructionAgreement` say that the tables of the
two ends are equal, between calls and after every single instruction.

A peer need not encode as this library does. What is proved of reading is proved for every encoding a peer may choose:
prefix integers and varints in any length, strings plain or Huffman-coded, any representation of a field that denotes
it, literals with any mark. The encodings of this library are among them.

## Conventions

- Octets are integers from 0 to 255, strings are octet sequences. `usize`, `u64` and `u32` counters are unbounded; where
  a width decides a branch (prefix integers below 2^63, varints below 2^62, saturating stream ids, the one octet of an
  emitted increment, the endless payload length) the bound is written out.
- `Success`/`Failure`, `Ok`/`Err` and `Option` stand for the library's results; a poll that is not ready is a value.
- The transport is a list of arrivals, failures included, or of answers to writes, chosen by the caller and quantified
  over.
- A capacity of at most 2^30 - 1 and fewer than 2^63 insertions are assumed of a run, as the code's own types do.
- The Huffman code is written as (length, code) per symbol, from which the octets the encoder stores are derived; the
  nested decoder tables are numbered breadth first.

## Where the code differs from its documents

The model follows the code. These differences are stated as lemmas.

- A decoder's `get` accepts encoded insert counts above 2 * MaxEntries (section 4.5.1.1 of RFC 9204 rejects them):
  `HeaderPrefix.ReconstructInWindow` gives the exact condition, `HeaderPrefix.OversizedCountLeavesWindow` an input.
- Both ends use the current capacity, not the agreed maximum, to wrap insert counts: `HeaderPrefix.CapacityChange` says
  when that still works, `HeaderPrefix.CapacityChangeMisleads` is a case where it does not.
- Entries that were never acknowledged may be evicted once nothing tracks them, so a block may reach a decoder that is
  too far behind to recognise it as blocked: `QpackRun.PrematureSection` says exactly when it is recognised and when the
  arithmetic faults, `PrematureRun.PrematureRun` is a run that gets there, `QpackRun.PrematureFault` a faulting count.
- `set_max_size` lowers the capacity even when a tracked entry keeps the table from shrinking:
  `Bookkeeping.ResizeFits` says exactly when the entries still fit, `Bookkeeping.LoweredBelowContents` is a case where
  they do not.
- Increments above 64 are refused by the encoder although decoders emit increments of up to 255:
  `Instructions.DecoderInstructionRoundTrip`.
- A piece of the encoder stream that inserts more than 255 entries is taken in and then reported as an error:
  `EncoderStream.FragmentationIndependence` says exactly which cuts are, `EncoderStream.OnePieceOverflows` is one.
- A payload cut short by the end of the stream is an error or an ordinary end, depending on how it was cut:
  `Chunking.CutIndependence` says exactly when what a reader sees depends on the octets alone, `Chunking.CutShort` is a
  stream where it does not.
- The last GOAWAY names the last accepted stream itself, which section 5.2 of RFC 9114 tells its receiver was not
  processed: `Shutdown.LastGoawayNamesAccepted` says exactly when, `Shutdown.LastGoawayExample` is a run.
- The Huffman decoder takes any bits that stop short of a symbol for the end, where section 5.2 of RFC 7541 wants an
  error unless they are at most seven ones: `HuffmanExact.DecodeExact` says exactly what is accepted,
  `HuffmanExact.PaddingUnchecked` gives two octets.
- A stream cancellation gives up only the two oldest blocks of its stream, where section 4.4.2 of RFC 9204 ends all
  references of the stream: `Sections.AcknowledgedExact`.
- Looking up the settings id 0 finds a value in a set that does not contain it: `Settings.Settings.Get`.
- Section 7.1 of RFC 9114 wants an error when the payload of a CANCEL_PUSH, GOAWAY or MAX_PUSH_ID is not exactly one
  integer. `Frames.IntegerFrameExtent` says what happens instead: octets behind the integer are read as the next frame
  (`Frames.TrailingOctetsBecomeFrame`), and a payload too short for its integer blocks the stream
  (`Frames.ShortIntegerStalls`).

## Model

| member | source | states |
|---|---|---|
| `PrefixInt.EncodeInto` | h3/src/qpack/prefix_int.rs:56-80 | the masked head and the loop over seven-bit groups write the encoding of the value |
| `PrefixInt.DecodeFrom` | h3/src/qpack/prefix_int.rs:22-54 | the reading loop computes the decoding function, with the same rest and the same errors, and its accumulator takes exactly the values that DecodeBounds speaks of |
| `PrefixInt.RoundTrip` | h3/src/qpack/prefix_int.rs:22-80 | for prefix sizes 1 to 8, flags that fit and values less than 2^63 above the mask, decoding inverts encoding and leaves what follows unread |
| `PrefixInt.StrictPrefix` | h3/src/qpack/prefix_int.rs:22-54 | every strict prefix of an encoding is reported as an unexpected end |
| `PrefixInt.DecodeBounds` | h3/src/qpack/prefix_int.rs:22-54 | whatever the input and however reading ends, every value the accumulator takes is below 2^64 and at most ten octets are read; an integer that is read leaves a suffix |
| `PrefixInt.Extend` | h3/src/qpack/prefix_int.rs:22-54 | octets that arrive later do not change an integer that was read |
| `PrefixInt.AnyContinuation` | h3/src/qpack/prefix_int.rs:22-54 | an integer in one to nine continuation octets, needed or not, is the mask plus what its groups denote; in ten or more it is an overflow |
| `PrefixInt.FirstByte` | h3/src/qpack/prefix_int.rs:56-80 | the flags decide the range of the first octet, on which dispatch relies |
| `HuffmanAgreement.TablesAgree` | h3/src/qpack/prefix_string/decode.rs:101-300 | for each of the 256 symbols, following the decoder tables along its code from the encoder table ends at that symbol |
| `HuffmanTree.EntryPlaced` | h3/src/qpack/prefix_string/decode.rs:101-300 | every entry of every decoder table is in its place: a symbol's code is the bits that lead to its table and its index there, and only the table behind the end-of-string code is empty |
| `Huffman.BitWindow.Forwards` | h3/src/qpack/prefix_string/bitwin.rs:13-20 | the window moves past its bits and the new start is where the old one ended |
| `Huffman.WriteBitsStream` | h3/src/qpack/prefix_string/encode.rs:87-113 | writing up to eight bits into an octet vector of trailing ones puts exactly those bits at the position and keeps all others |
| `Huffman.HuffmanEncoder.EnsureFreeSpace` | h3/src/qpack/prefix_string/encode.rs:31-53 | the buffer grows by all-ones octets just enough for the next bits, and holds the same code bits |
| `Huffman.HuffmanEncoder.Put` | h3/src/qpack/prefix_string/encode.rs:55-71 | putting a symbol appends exactly its code bits |
| `Huffman.HpackEncodeInto` | h3/src/qpack/prefix_string/encode.rs:385-397 | the encoder loop produces the packed code bits of the string |
| `Huffman.EncodedShape` | h3/src/qpack/prefix_string/encode.rs:31-110 | the encoding has ceil(code bits / 8) octets: the code bits, then ones |
| `Huffman.ReadBitsValue` | h3/src/qpack/prefix_string/decode.rs:81-99 | reading a window of up to eight bits across octet bounds gives the number those bits denote |
| `Huffman.Walk` | h3/src/qpack/prefix_string/decode.rs:50-75 | decoding from any bit offset along the bits of a path reaches its symbol and stops right behind them |
| `Huffman.EndOfString` | h3/src/qpack/prefix_string/decode.rs:22-48 | fewer bits than a lookup needs, all ones, are taken for the end |
| `Huffman.DecodePadding` | h3/src/qpack/prefix_string/decode.rs:22-75 | up to seven padding bits of ones end the string from any bit offset |
| `Huffman.HpackDecodeFrom` | h3/src/qpack/prefix_string/decode.rs:297-325 | the decoder loop computes the decoding function and terminates on every input |
| `Huffman.HuffmanRoundTrip` | h3/src/qpack/prefix_string/decode.rs:22-99 | every string decodes to itself from its encoding, over all bit offsets and padding lengths |
| `HuffmanExact.NextExact` | h3/src/qpack/prefix_string/decode.rs:22-99 | from any table and bit offset: a symbol is read off exactly the bits of its code, and the end is found exactly at bits that stop short of one |
| `HuffmanExact.DecodeExact` | h3/src/qpack/prefix_string/decode.rs:22-99 | for every input and value: the input decodes to the value exactly if its bits are the value's code bits and then bits that stop short of a symbol |
| `HuffmanExact.PaddingUnchecked` | h3/src/qpack/prefix_string/decode.rs:22-48 | 0xfe and 0xff decode to the empty string |
| `PrefixString.EncodeInto` | h3/src/qpack/prefix_string/mod.rs:62-69 | length prefix with the Huffman flag, then the Huffman octets, appended to the buffer |
| `PrefixString.DecodeFrom` | h3/src/qpack/prefix_string/mod.rs:42-60 | the loop that takes the announced octets computes the decoding function, plain or Huffman by the lowest flag |
| `PrefixString.RoundTrip` | h3/src/qpack/prefix_string/mod.rs:42-69 | a string literal comes back and what follows it is left unread |
| `PrefixString.PlainRoundTrip` | h3/src/qpack/prefix_string/mod.rs:42-60 | a string whose Huffman flag is not set is its octets |
| `PrefixString.RoundTripAs` | h3/src/qpack/prefix_string/mod.rs:42-60 | both forms of a string decode to it |
| `PrefixString.StrictPrefixAs` | h3/src/qpack/prefix_string/mod.rs:42-60 | every strict prefix of a string literal in either form is reported as an unexpected end |
| `PrefixString.DecodeSuffix` | h3/src/qpack/prefix_string/mod.rs:42-60 | a decoded string leaves a strictly shorter suffix unread |
| `StaticTable.FindSound` | h3/src/qpack/static_.rs:13-187 | what the match arms of find and find_name answer is a place of the table that holds the field, or a field of that name |
| `StaticTable.FindComplete` | h3/src/qpack/static_.rs:20-187 | whatever field or name the table holds has a match arm, a name the one of its first entry |
| `AddressSpace.NamesOfLiveEntry` | h3/src/qpack/vas.rs:104-142 | relative, base-relative, post-base and container indexes of a live entry all lead to its one container position |
| `AddressSpace.AcceptedNames` | h3/src/qpack/vas.rs:104-142 | an index is accepted exactly if the entry it means is live |
| `HeaderPrefix.WindowRoundTrip` | h3/src/qpack/block.rs:136-150 | every insert count within one table length of the decoder's own survives the modular encoding |
| `HeaderPrefix.ReconstructResidue` | h3/src/qpack/block.rs:136-150 | a reconstructed count has the encoded residue |
| `HeaderPrefix.ReconstructUnique` | h3/src/qpack/block.rs:136-150 | it is the only count in the window with that residue |
| `HeaderPrefix.ReconstructInWindow` | h3/src/qpack/block.rs:136-150 | it lies in the window exactly if the encoding is not too large for the decoder's position |
| `HeaderPrefix.ReconstructFault` | h3/src/qpack/block.rs:136-150 | the arithmetic faults exactly if the capacity holds no entry or the count would be negative |
| `HeaderPrefix.OversizedCountLeavesWindow` | h3/src/qpack/block.rs:136-150 | an accepted encoding that reconstructs to a count outside the window |
| `HeaderPrefix.CapacityChange` | h3/src/qpack/block.rs:118-150 | when encoder and decoder use different capacities: exactly when a count in the window is still read back |
| `HeaderPrefix.CapacityChangeMisleads` | h3/src/qpack/block.rs:118-150 | a capacity change after which the fourth insertion is taken for the sixth |
| `HeaderPrefix.BaseExact` | h3/src/qpack/block.rs:152-166 | for every count in the window, sign and delta: the base counts down from one below the required count or up from it, and one below zero is refused with its value |
| `HeaderPrefix.PrefixRoundTrip` | h3/src/qpack/block.rs:93-166 | get(new(required, base)) returns required and base for every required count in the window |
| `HeaderPrefix.EmptyPrefix` | h3/src/qpack/block.rs:93-166 | a section without references requires nothing, whatever the capacities |
| `HeaderPrefix.WireRoundTrip` | h3/src/qpack/block.rs:177-204 | the prefix comes back from its octets |
| `FieldLines.RoundTripAs` | h3/src/qpack/block.rs:67-411 | each of the seven representations is dispatched by its first octet and parses back to itself, whatever follows, with its strings plain or Huffman-coded and marked never to be indexed or not |
| `FieldLines.DecodeSuffix` | h3/src/qpack/block.rs:67-411 | a decoded line leaves a strictly shorter suffix, so that decoding loops end |
| `Instructions.InstructionRoundTripAs` | h3/src/qpack/stream.rs:57-217 | every encoder instruction parses back to itself, whatever follows it, its strings plain or Huffman-coded |
| `Instructions.InstructionPrefixAs` | h3/src/qpack/stream.rs:93-217 | a strict prefix of an encoder instruction in any form parses to nothing |
| `Instructions.ParseSuffix` | h3/src/qpack/decoder.rs:141-178 | a parsed instruction leaves a strictly shorter suffix |
| `Instructions.DecoderInstructionRoundTrip` | h3/src/qpack/stream.rs:252-330 | a decoder instruction parses back to itself exactly unless it is an increment above 64, which is refused |
| `Stateless.EncodeStateless` | h3/src/qpack/encoder.rs:192-215 | the loop writes the prefix and one line per field, and adds up the section size |
| `Stateless.DecodeStateless` | h3/src/qpack/decoder.rs:218-262 | the loop computes the decoding function, stopping at the first size above the limit |
| `Stateless.AnyPeerDecodes` | h3/src/qpack/decoder.rs:218-262 | for every choice of prefix, representations and string forms of a peer, and every limit: the fields and their size come back exactly if the size is within the limit; otherwise HeaderTooLong with the size of the shortest prefix above it |
| `Stateless.BadLineRefused` | h3/src/qpack/decoder.rs:218-262 | a line that refers to the dynamic table or beyond the static one makes the section fail with that error, whatever comes before and behind it |
| `Stateless.LineChosen` | h3/src/qpack/encoder.rs:192-215 | the encoder writes an index exactly for a field of the static table, a name reference exactly for another field with a name of it, and a literal otherwise |
| `Stateless.StatelessRoundTrip` | h3/src/qpack/decoder.rs:218-262 | so for every field list as this encoder writes it |
| `Stateless.WithinLimitAccepted` | h3/src/client/connection.rs:195-211 | a sender that compares the encoder's size with the peer's limit is refused exactly when it is above |
| `TableModel.MinEvict` | h3/src/qpack/dynamic.rs:401-433 | the shortest oldest prefix whose eviction leaves at most the budget |
| `TableModel.ReplayConcat` | h3/src/qpack/decoder.rs:114-139 | replaying a log in two parts is replaying it at once |
| `TableModel.ReplayExtends` | h3/src/qpack/dynamic.rs:360-399 | replaying only appends at the new end and drops at the old end: entries that stay are the same |
| `TableModel.ResolveExact` | h3/src/qpack/decoder.rs:180-213 | a line denotes the entry with the absolute index it refers to, or its name; the errors of references to anything else |
| `TableModel.InsertedExact` | h3/src/qpack/decoder.rs:141-178 | an insertion repeats, or takes the name of, the entry that many places before the newest; the errors of references to anything else |
| `TableModel.ResolveStable` | h3/src/qpack/decoder.rs:180-213 | a line means the same field against every table of the stream in which its reference is live |
| `TableModel.ReplayFits` | h3/src/qpack/dynamic.rs:360-377 | the entries never exceed the capacity after replaying any log |
| `TableModel.LiveInWindow` | h3/src/qpack/block.rs:136-150 | entries cost at least 32 octets, so live references are within capacity / 32 of the insert count |
| `Bookkeeping.EvictKeepsFields` | h3/src/qpack/dynamic.rs:379-399 | after an eviction the field index still names the newest live entry of every live field and nothing else |
| `Bookkeeping.EvictKeepsNames` | h3/src/qpack/dynamic.rs:379-399 | and the name index still names live entries, the newest one for names outside the static table |
| `Bookkeeping.AppendKeepsIndexes` | h3/src/qpack/dynamic.rs:115-189 | the index updates of an insertion keep both |
| `Bookkeeping.ConservedTrack` | h3/src/qpack/dynamic.rs:199-205 | counting a reference of the encoder at work keeps: table counts = outstanding blocks + encoder at work |
| `Bookkeeping.ConservedCommit` | h3/src/qpack/dynamic.rs:84-89 | so does handing the references over to the committed block |
| `Bookkeeping.ConservedDrop` | h3/src/qpack/dynamic.rs:59-70 | the references of an uncommitted encoder can always be given back, and the balance holds without them |
| `Bookkeeping.ConservedUntrack` | h3/src/qpack/dynamic.rs:344-358 | the references of an outstanding block can always be given back: InvalidTrackingCount cannot occur |
| `Bookkeeping.OutstandingTracked` | h3/src/qpack/dynamic.rs:344-358 | every entry an outstanding block refers to is tracked and live |
| `Bookkeeping.InsertionRefused` | h3/src/qpack/dynamic.rs:360-377 | an insertion succeeds exactly if the capacity is not zero, the field fits it, and no entry that must go is tracked |
| `Bookkeeping.InsertionReplays` | h3/src/qpack/dynamic.rs:360-377 | an insertion that tracking allows evicts exactly what replaying it evicts |
| `Bookkeeping.ResizeFits` | h3/src/qpack/dynamic.rs:291-309 | the entries fit a new capacity exactly if no tracked entry was in the way, and then the change does what replaying it does |
| `Bookkeeping.LoweredBelowContents` | h3/src/qpack/dynamic.rs:303-308 | one tracked entry and a capacity lowered to zero: the entry stays and does not fit |
| `Bookkeeping.PendingSum` | h3/src/qpack/dynamic.rs:483-517 | the per-reference counters sum to the number of commits beyond the known received count |
| `Bookkeeping.PendingRaise` | h3/src/qpack/dynamic.rs:501-517 | splitting off the acknowledged keys leaves exactly the counters of the later commits |
| `DynamicTable.DynamicTable.CanFree` | h3/src/qpack/dynamic.rs:401-433 | the scan answers how many oldest entries make room, or None exactly if a tracked one of them is in the way |
| `DynamicTable.DynamicTable.Evict` | h3/src/qpack/dynamic.rs:379-399 | exactly the oldest entries go, sizes and counters agree, and both indexes stay exact |
| `DynamicTable.DynamicTable.Insert` | h3/src/qpack/dynamic.rs:360-377 | room is made and the field appended, or nothing changes |
| `DynamicTable.DynamicTable.Put` | h3/src/qpack/dynamic.rs:311-331 | an insertion for the peer, keeping every invariant of the table |
| `DynamicTable.DynamicTable.SetMaxSize` | h3/src/qpack/dynamic.rs:291-309 | the new table, and that the invariant survives exactly if no tracked entry was in the way |
| `DynamicTable.DynamicTable.GetRelative` | h3/src/qpack/dynamic.rs:333-338 | the entry a relative index names, or the error |
| `DynamicTable.DynamicTable.TrackBlock` | h3/src/qpack/dynamic.rs:446-457 | the references are queued behind the stream's earlier blocks |
| `DynamicTable.DynamicTable.TrackCancel` | h3/src/qpack/dynamic.rs:459-481 | in whatever order the references come: success exactly if all were counted, and then exactly they are subtracted |
| `DynamicTable.DynamicTable.UntrackBlock` | h3/src/qpack/dynamic.rs:344-358 | the oldest block of the stream and its references go; the only error is an unknown stream |
| `DynamicTable.DynamicTable.RegisterBlocked` | h3/src/qpack/dynamic.rs:483-499 | the blocked counters stay exact for the history of commits |
| `DynamicTable.DynamicTable.UpdateLargestReceived` | h3/src/qpack/dynamic.rs:501-517 | and stay exact when the known received count rises |
| `DynamicTable.DynamicTable.Reindex` | h3/src/qpack/dynamic.rs:265-272 | re-indexing leaves every live name with its newest entry and the field index exact |
| `TableEncoder.TableEncoder.Find` | h3/src/qpack/dynamic.rs:91-113 | the newest live entry of the field in the form the base allows, counted; NotFound exactly if no live entry holds it |
| `TableEncoder.TableEncoder.FindName` | h3/src/qpack/dynamic.rs:191-197 | the static table first, then the newest live entry of the name |
| `TableEncoder.TableEncoder.Insert` | h3/src/qpack/dynamic.rs:115-189 | an insertion and the instruction that describes it have the same effect; it is refused exactly for blocking, capacity or tracking |
| `TableEncoder.TableEncoder.Register` | h3/src/qpack/dynamic.rs:133-189 | the answer describes the new entry by an earlier live one, the static table, or a literal |
| `TableEncoder.TableEncoder.Commit` | h3/src/qpack/dynamic.rs:84-89 | the block is queued with its references and recorded as possibly blocked |
| `TableEncoder.TableEncoder.Drop` | h3/src/qpack/dynamic.rs:59-70 | an encoder given up before commit leaves the reference counts exactly as it found them |
| `TableEncoder.InsertionInstruction` | h3/src/qpack/dynamic.rs:133-189 | the registered description, replayed before the insertion, inserts the same field with the same evictions |
| `TableEncoder.DescriptionRegistered` | h3/src/qpack/dynamic.rs:133-189 | what the indexes say before their update names a live entry with the same field or the same name |
| `TableEncoder.OnlyCapacityError` | h3/src/qpack/dynamic.rs:122-130 | an insertion fails for no other reason than that the field exceeds the capacity |
| `Sections.EncodesStable` | h3/src/qpack/dynamic.rs:401-433 | a section keeps standing for its fields as long as the entries counted for it stay |
| `Sections.LiteralLine` | h3/src/qpack/encoder.rs:156-178 | a literal with the name a lookup found resolves to the field |
| `Sections.ResolvedEncodable` | h3/src/qpack/block.rs:214-411 | lines that resolve to encodable fields can be written |
| `Sections.RequiredInWindow` | h3/src/qpack/block.rs:93-124 | a required count is live, so the prefix computation neither asserts nor divides by zero |
| `Sections.AcknowledgedKeeps` | h3/src/qpack/encoder.rs:91-109 | feedback keeps the balance of reference counts, also when a cancellation untracks twice |
| `Sections.AcknowledgedExact` | h3/src/qpack/encoder.rs:91-109 | an acknowledgement gives up the oldest block of its stream or is an error if there is none, a cancellation the oldest two as far as there are any, an increment none |
| `Sections.FeedbackSums` | h3/src/qpack/encoder.rs:91-109 | feeding a list of instructions the encoder acts on, octet by octet, adds the sum of their increments to the known received count and goes on with what follows |
| `Sections.KnownRises` | h3/src/qpack/encoder.rs:103-105 | for any octets, the known received count rises by the increments among the instructions acted on |
| `Encoder.Encoder.EncodeField` | h3/src/qpack/encoder.rs:111-181 | which line and instruction are chosen, in which cases a new entry is made; the line resolves to the field against the table after the instruction, and what it refers to is counted |
| `Encoder.Encoder.EncodeFields` | h3/src/qpack/encoder.rs:69-75 | the loop over the fields: the lines stand for them, the instructions replay to the table, and the required count is the largest reference |
| `Encoder.Encoder.Encode` | h3/src/qpack/encoder.rs:53-89 | encoding never fails; the block stands for the fields, the instructions replay to the new table, and the references are queued |
| `Encoder.Encoder.OnDecoderRecv` | h3/src/qpack/encoder.rs:91-109 | the loop applies every whole decoder instruction in order, up to the first error, and the known received count rises by exactly their increments |
| `Encoder.Encoder.SetDynamicTableSize` | h3/src/qpack/encoder.rs:263-271 | the capacity change and the instruction that announces it |
| `Decoder.Decoder.OnEncoderRecv` | h3/src/qpack/decoder.rs:114-139 | the loop applies every whole instruction in order up to the first error, and announces the number inserted, or fails above 255 |
| `Decoder.Decoder.FieldOf` | h3/src/qpack/decoder.rs:141-178 | the field an instruction inserts, looked up before the insertion |
| `Decoder.Decoder.DecodeHeader` | h3/src/qpack/decoder.rs:88-111 | the loop computes the decoding of a section: prefix, missing references, lines |
| `EncoderStream.ReceiveEmitted` | h3/src/qpack/decoder.rs:141-178 | whatever string forms a peer uses, its instructions are replayed, and what comes behind them is read next |
| `EncoderStream.NextInstruction` | h3/src/qpack/decoder.rs:114-178 | for any instruction behind them: a bad reference is an error and stays unread, one the table refuses is an error and is read, a table without capacity takes in nothing, and any other is replayed |
| `EncoderStream.ReceivePrefix` | h3/src/qpack/decoder.rs:141-178 | of the first n octets of a stream exactly the whole instructions are replayed and the rest stays unread |
| `EncoderStream.ReceiveBetween` | h3/src/qpack/decoder.rs:141-178 | reading may pause at any two octets: what was left unread comes first when it goes on |
| `EncoderStream.FragmentationIndependence` | h3/src/qpack/decoder.rs:114-178 | for every cut: there is no error exactly if no piece completes insertions that add more than 255 entries, and then table, unread rest and the sum of the increments are those of one piece; otherwise the increment of such a piece is reported |
| `EncoderStream.ShortStreamFits` | h3/src/qpack/decoder.rs:132-136 | a stream of at most 255 instructions is never refused, however it is cut |
| `EncoderStream.OnePieceOverflows` | h3/src/qpack/decoder.rs:132-136 | 256 insertions in one piece are refused, and the same stream in two pieces is not |
| `QpackRun.WrittenSectionDecodes` | h3/src/qpack/decoder.rs:88-111 | a section decodes to its fields wherever its lines resolve to them and the required entries are there, in whatever forms its strings are written |
| `QpackRun.SectionDecodes` | h3/src/qpack/decoder.rs:88-111 | so it does as this encoder writes it |
| `QpackRun.BadLineRefused` | h3/src/qpack/decoder.rs:88-111 | a line that refers to an entry which is not there makes the section fail with the error of that reference, whatever comes before and behind it |
| `QpackRun.PrematureSection` | h3/src/qpack/decoder.rs:88-94 | a section that arrives too early is reported as missing its required count exactly if the decoder is at most capacity / 32 insertions behind, and makes the arithmetic fault exactly if the encoded count is that far above the decoder's own |
| `QpackRun.PrematureFault` | h3/src/qpack/block.rs:126-166 | a count for which the arithmetic faults: the third insertion at a decoder that has made none |
| `QpackRun.RunInv` | h3/src/qpack/encoder.rs:53-109 | in every run: the log replays to the encoder's table, counts balance, and every outstanding block stands for its fields |
| `QpackRun.OutstandingDecodes` | h3/src/qpack/decoder.rs:88-111 | every outstanding block of every run decodes to its fields on every decoder that has its required insertions at the block's capacity, whatever else was replayed |
| `QpackRun.OutstandingDecodesFromStream` | h3/src/qpack/decoder.rs:88-178 | the same from octets to octets, wherever in the encoder stream the decoder stands |
| `QpackRun.ReplicaAgreement` | h3/src/qpack/decoder.rs:114-139 | a decoder fed the instructions of any earlier point, in any pieces none of which adds more than 255 entries, holds the encoder's table of that point; any other cut is reported as an error |
| `QpackRun.FeedbackKeepsInv` | h3/src/qpack/encoder.rs:91-109 | acknowledgements and cancellations in any order keep the run invariant |
| `QpackRun.NothingOutstandingEvicted` | h3/src/qpack/dynamic.rs:401-433 | in every run the entries of outstanding blocks stay, and the entries fit the capacity |
| `PrematureRun.PrematureRun` | h3/src/qpack/encoder.rs:53-109 | a run of two blocks and a cancellation whose last block a decoder at the start takes for one without references |
| `EncoderSession.Session.EncodeBlock` | h3/src/qpack/encoder.rs:53-89 | a call of encode is a step of a run, the octets it writes are those of the block the guarantees speak of, and the table after each instruction is kept |
| `EncoderSession.Session.SetCapacity` | h3/src/qpack/encoder.rs:263-271 | so is an unobstructed capacity change |
| `EncoderSession.Session.Receive` | h3/src/qpack/encoder.rs:91-109 | the new state, the unread rest and the error are those of the feedback function, and exactly the instructions acted on become steps of the run |
| `EncoderSession.Session.BlockedAreBeyond` | h3/src/qpack/dynamic.rs:483-517 | after any calls: the blocks counted as blocked are those that require more than the increments received add up to |
| `EncoderSession.InstructionAgreement` | h3/src/qpack/decoder.rs:114-178 | a decoder that has read exactly the first k instructions holds the table the encoder held right after the k-th, also in the middle of a block |
| `VarInts.RoundTripIn` | h3/src/proto/varint.rs:78-112 | every value comes back from each of the lengths 1, 2, 4 and 8 that has room for it, and what follows is left unread |
| `VarInts.RoundTrip` | h3/src/proto/varint.rs:58-126 | the encoder picks one of them for every value below 2^62 |
| `VarInts.StrictPrefixIn` | h3/src/proto/varint.rs:78-112 | a strict prefix of any of those encodings is never taken for a value |
| `VarInts.Extend` | h3/src/proto/varint.rs:78-112 | octets that arrive later do not change a value that was read |
| `VarInts.DecodeBounds` | h3/src/proto/varint.rs:78-112 | what is read is below 2^62 and takes one to eight octets |
| `Settings.Settings.Insert` | h3/src/proto/frame.rs:489-504 | the array is filled from the front; full and repeated are refused without a change |
| `Settings.Settings.Get` | h3/src/proto/frame.rs:506-513 | the first entry of the id; absent ids are absent, except that id 0 seems present while the array is not full |
| `Settings.NeverExceeded` | h3/src/proto/frame.rs:523-561 | decoding never runs out of room: there are only seven supported ids |
| `Settings.RoundTrip` | h3/src/proto/frame.rs:515-561 | settings without forbidden or repeated ids come back, less the unknown ones, whatever lengths their integers are written in |
| `Settings.BadEntryRefused` | h3/src/proto/frame.rs:523-561 | behind such settings, an id that HTTP/2 used or one that is there already makes the frame fail, whatever follows |
| `Settings.CutEntryRefused` | h3/src/proto/frame.rs:523-561 | an entry that is cut off makes the frame fail |
| `Settings.LengthExact` | h3/src/proto/frame.rs:477-483 | the length announced in the header is the length of the payload |
| `Frames.Extend` | h3/src/proto/frame.rs:82-148 | octets that arrive later do not change a frame, an unknown frame or an error that was found |
| `Frames.ExpectedIsLowerBound` | h3/src/proto/frame.rs:82-148 | the number of octets an incomplete frame asks for is never more than it takes |
| `Frames.FrameRoundTrip` | h3/src/proto/frame.rs:82-185 | every frame comes back from every encoding of its type, length and integers, whatever follows it, the header of a WebTransport stream included |
| `Frames.BodyRoundTrip` | h3/src/proto/frame.rs:103-105 | a DATA header is decoded without its payload, in any lengths of its integers |
| `Frames.GreaseSkipped` | h3/src/proto/frame.rs:129-136 | a frame of unknown type is recognised with its payload, in any lengths of its integers |
| `Frames.ReservedRefused` | h3/src/proto/frame.rs:121-128 | the four frame types of HTTP/2 are an error, and not skipped |
| `Frames.BadSettingsRefused` | h3/src/proto/frame.rs:82-148 | a SETTINGS frame whose entries are refused is that error |
| `Frames.OwnEncoding` | h3/src/proto/frame.rs:151-185 | the encodings this encoder writes are among those |
| `Frames.IntegerFrameExtent` | h3/src/proto/frame.rs:104-119 | a complete CANCEL_PUSH, GOAWAY or MAX_PUSH_ID ends where its length says exactly if its payload is one integer; octets behind the integer stay in front of what follows; a payload too short for its integer stays incomplete whatever follows |
| `Frames.TrailingOctetsBecomeFrame` | h3/src/proto/frame.rs:116-119 | a GOAWAY of three octets, two of which are read as a DATA frame |
| `Frames.ShortIntegerStalls` | h3/src/proto/frame.rs:116-119 | a GOAWAY with half an integer, behind which no frame is ever found |
| `BufLists.BufList.Remaining` | h3/src/buf.rs:74-76 | the sum over the chunks is the number of octets |
| `BufLists.BufList.TakeChunk` | h3/src/buf.rs:40-52 | at most max octets off the first chunk, and exactly they are gone; nothing for a maximum of zero |
| `BufLists.BufList.Advance` | h3/src/buf.rs:84-99 | exactly the first octets are dropped, across chunks |
| `BufLists.Cursor.Advance` | h3/src/buf.rs:142-160 | the cursor moves over chunk bounds and its view is the octets from its position on |
| `BufLists.Cursor.ChunkHere` | h3/src/buf.rs:137-139 | the contiguous octets at the position |
| `FrameReader.FrameStream.DecodeBuffered` | h3/src/frame.rs:221-298 | the loop that skips unknown frames computes the next frame of the buffer, with the expected-length shortcut |
| `FrameReader.FrameStream.PollNextFrame` | h3/src/frame.rs:63-102 | polling for a frame, step by step as the transport answers, with its read errors |
| `FrameReader.FrameStream.PollPayload` | h3/src/frame.rs:107-136 | polling for payload, including its end-of-stream cases and read errors |
| `FrameReader.FrameStream.TryReceive` | h3/src/frame.rs:151-160 | one answer of the transport, remembered end of stream first |
| `Chunking.ExpectationHarmless` | h3/src/frame.rs:233-237 | waiting for the expected octets skips only looks that would have found nothing |
| `Chunking.PollNextAgrees` | h3/src/frame.rs:63-102 | a polled frame is the next frame of a one-shot parse of everything that is still to come |
| `Chunking.PollDataAgrees` | h3/src/frame.rs:107-136 | payload is handed out in order, never beyond its length; anything else is said only if the stream ends short |
| `Chunking.SeesParse` | h3/src/frame.rs:63-136 | unless the stream ends inside a payload or reading fails, every reader sees the one-shot parse of its octets |
| `Chunking.BrokenSeesPrefix` | h3/src/frame.rs:63-160 | a reader whose transport fails has by then seen a prefix of the one-shot parse |
| `Chunking.CutIndependence` | h3/src/frame.rs:107-136 | while reading does not fail, what a reader sees depends on the octets alone exactly if the stream does not end inside a payload after its first octet |
| `Chunking.CutShort` | h3/src/frame.rs:107-136 | a stream that does: a DATA frame of two octets cut off after the first |
| `Chunking.FramesArrive` | h3/src/frame.rs:63-136 | frames with a length sent in sequence, in any lengths of their integers, are seen as meant: in order, payloads whole, unknown frames skipped, then the end |
| `Chunking.BadFrameStops` | h3/src/frame.rs:63-102 | behind such frames, one that is refused or not all there stops the reader with its error, however the stream is cut |
| `StreamIds.PlusProperties` | h3/src/proto/stream.rs:185-196 | adding streams keeps the kind, never goes back, and saturates below 2^62 |
| `StreamIds.PlusExact` | h3/src/proto/stream.rs:185-196 | below 2^62, n streams later is 4 * n further |
| `Shutdown.Connection.PollRequestsCompletion` | h3/src/server/connection.rs:291-311 | the loop takes in the end messages; ready exactly if nothing is ongoing |
| `Shutdown.Connection.PollAcceptRequestStream` | h3/src/server/connection.rs:181-225 | the next request, rejecting streams beyond the GOAWAY sent, with end messages that come in while it polls |
| `Shutdown.Connection.Accept` | h3/src/server/connection.rs:127-142 | and a last GOAWAY, on the control stream if it lowers the earlier one, when there is nothing left to wait for |
| `Shutdown.PollIsLooks` | h3/src/server/connection.rs:181-225 | what a poll does is what a number of looks of the step system do |
| `Shutdown.Connection.ShutdownFor` | h3/src/connection.rs:328-345 | the GOAWAY for the granted requests, sent only if it lowers the earlier one |
| `Shutdown.Connection.ReceiveGoaway` | h3/src/connection.rs:663-700 | a larger id than before is refused, any other is noted |
| `Shutdown.RunInv` | h3/src/server/connection.rs:127-311 | in every run: what is waited for has an owner or an end message on its way; accepted streams are in order; GOAWAYs bound them |
| `Shutdown.AnswersExact` | h3/src/server/connection.rs:181-225 | in every run, exactly when a look at the arrivals answers the next stream, rejects it, waits, or says that there will be no more |
| `Shutdown.ShutdownGrants` | h3/src/server/connection.rs:167-171 | in every run, unless a lower GOAWAY is in force, a shutdown for n requests puts the one 4 * n behind the last accepted stream in force, and sends it if it is new |
| `Shutdown.GrantKept` | h3/src/server/connection.rs:181-225 | in every run, of all streams that arrived, those up to the GOAWAY in force are accepted or still to be looked at and those beyond it are not accepted |
| `Shutdown.GrantedThenTurnedAway` | h3/src/server/connection.rs:167-225 | in every run that has accepted all that arrived, the n requests after a shutdown for n are accepted and the next is rejected |
| `Shutdown.GoawayAgreement` | h3/src/server/connection.rs:167-225 | GOAWAYs strictly decrease, are request ids below 2^62, never below an accepted stream, and a client reading them raises no error |
| `Shutdown.ClientAccepts` | h3/src/client/connection.rs:424-441 | a client accepts a list of GOAWAYs exactly if they are request ids that never increase |
| `Shutdown.DrainedBeforeEnd` | h3/src/server/stream.rs:232-262 | the accept that ends does so only when every accepted request has lost its last owner and its end message was taken in; rejected streams are never waited for |
| `Shutdown.OutOfOrderBreaksBound` | h3/src/server/connection.rs:167-174 | two accepts that find streams 8 and then 4 take both, and the next GOAWAY names 4 |
| `Shutdown.LastGoawayNamesAccepted` | h3/src/server/connection.rs:127-142 | after the accept that ends, the GOAWAY in force names an accepted stream exactly if there is one, and then the last; it is also the last on the control stream unless it was in force before |
| `Shutdown.LastGoawayExample` | h3/src/server/connection.rs:127-142 | a run in which a finished request is named by the last GOAWAY |
| `ConnectionErrors.SharedState.SetConnError` | h3/src/shared_state.rs:54-67 | the first error set stays; every setter gets that one back |
| `ConnectionErrors.StreamTask.HandleConnectionErrorOnStream` | h3/src/error/connection_error_creators.rs:102-110 | a stream task reports the conversion of the stored error, in one step of the interleavings |
| `ConnectionErrors.StreamTask.HandleQuicStreamError` | h3/src/error/connection_error_creators.rs:112-127 | so does a transport error of the connection; stream errors leave the cell alone |
| `ConnectionErrors.Driver.HandleConnectionError` | h3/src/error/connection_error_creators.rs:29-63 | the driver reports the stored error and closes for it, once: the steps of its error path, undisturbed |
| `ConnectionErrors.Driver.PollConnectionError` | h3/src/error/connection_error_creators.rs:68-86 | so does its poll |
| `ConnectionErrors.FirstErrorAgreement` | h3/src/error/connection_error_creators.rs:29-132 | in every interleaving: the first error is stored and stays, all reports convert it, and once it is handled the transport was closed once with its code and message, with H3_INTERNAL_ERROR for an internal error of the transport, or not at all |
| `SendStreams.WriteBuf.Advance` | h3/src/stream.rs:244-256 | exactly the first octets go, over the end of the header into the payload |
| `SendStreams.WriteBuf.Chunk` | h3/src/stream.rs:234-242 | the header first, then the payload; empty only if nothing is left |
| `SendStreams.SendStream.PollReady` | h3-quinn/src/lib.rs:519-531 | the loop writes a prefix of what waits, and says ready exactly if that was all; a finished stream takes nothing |
| `SendStreams.SendStream.Send` | h3-quinn/src/lib.rs:553-568 | a frame is taken over unless one is waiting |
| `SendStreams.SendStream.PollFinish` | h3-quinn/src/lib.rs:534-543 | FIN only after a full flush, and only once |
| `SendStreams.WritesIntact` | h3/src/stream.rs:31-47 | for every interleaving of writes, progress, cancellation and finishing: send_data never meets a waiting frame, the wire and what waits are the frames handed over, whole and in order; FIN follows all frames handed over before it, and nothing is added by writes begun later |
| `SendStreams.WriteAfterFin` | h3-quinn/src/lib.rs:519-568 | a write begun after FIN hands its frame over and fails, and the frame stays where it is |
| `SendStreams.RunInv` | h3/src/stream.rs:31-47 | in every run: what is on the wire and what waits are the frames handed over, and a write that has not handed its frame over contributes nothing |
| `SendStreams.CompletedWrite` | h3/src/stream.rs:31-47 | in every run, whatever came later: each write that returned without an error has its frame and all before it on the wire |
| `SendStreams.WriteWaits` | h3/src/stream.rs:31-47 | in every run, a write polled while its frame waits returns exactly when nothing is left, or with an error |

## Left out

- QUIC itself (quinn, rustls, tokio): a transport is what it answers; of h3-quinn only the send stream's state is modelled.
- Wakers, liveness and timing: polls are steps, and only what holds at every step is proved, not that a task is woken.
- `h3/src/proto/headers.rs`, request building and URIs: thin logic over the http crate, which is not part of this model.
- WebTransport sessions, datagrams, server push and `AcceptRecvStream`: only the endless payload of a WebTransport frame is modelled.
- Vectored I/O, allocation, `reserve`, 32-bit `usize` casts and Huffman strings with more than 2^32 bits.
- Encoding errors of strings and field lines: the encoder functions have none on the inputs they accept here.
- Dropping a `Connection`, which closes the transport outside the error path.
- `poll_control` beyond its GOAWAY and error handling, grease streams, and the order of control-stream frames.
- Instructions.InstructionRoundTripAs: assumes indexes below 2^63 and strings whose encodings have such lengths, as 64-bit indexes and memory do.
- QpackRun.OutstandingDecodes: assumes that the decoder has the capacity the block was encoded with; `HeaderPrefix.CapacityChange` says what happens otherwise.
- QpackRun.ReplicaAgreement: runs change the capacity only when no tracked entry is in the way; `Bookkeeping.ResizeFits` shows that this is exactly when the table stays sound.
- Shutdown.Connection.PollAcceptRequestStream: streams that arrive during a call are left to the next one; in `Shutdown.Step` they may arrive between any two looks.
- Shutdown.GoawayAgreement: streams arrive in the order of their ids, as the transport delivers them; `Shutdown.OutOfOrderBreaksBound` shows why this matters.
- SendStreams.SendStream.PollReady: a transport that takes anything takes at least one octet, and after FIN it refuses octets and another FIN, as quinn does.
- Chunking.FramesArrive: the payload of a WebTransport stream has no length and is therefore not among the frames sent in sequence.
- DynamicTable.DynamicTable.RegisterBlocked: does not bound the number of blocked streams, because the limit is only consulted on insertion.
