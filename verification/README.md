# rusty-rapidgzip: a verified model

rusty-rapidgzip decodes gzip files in parallel. It guesses where DEFLATE blocks start, decodes each
piece without the 32 KiB before it, checks the guesses afterwards and repairs what was left open. This
project models that machinery and proves that none of it can be told from decoding one block after
another: for every input, every list of guesses, every order in which results arrive and every schedule
of the threads. Where that is not quite true of the code, the exact condition is stated and proved, with
an input that shows it. And what all of them decode is pinned to the formats themselves: a writer made from
the RFCs alone, and the proof that exactly what it can write comes back.

The modules, from the bits up:

| module | models |
|---|---|
| Words, BitStream | machine words as numbers with shift and mask laws; the LSB-first bit stream and the buffered reader with its two refills |
| Canonical, Tables, Huffman, SafeHuffman, CodeSpace | the canonical code of section 3.2.2 of RFC 1951, the packed table entries, the two independent table builders, and what they accept |
| Lz77 | tokens, their meaning with the window known (bytes) and unknown (cells), and resolution |
| Deflate, Blocks, Kernels, CopyKernels | what a block means as a function of the bits alone, header parsing, the byte loops and the copy kernels |
| Speculative, U16Window, U16Kernel, SpeculativeDecode, MarkerTable, LongFile | 16-bit cells, the bounded window, the hand-off to bytes, the marker list, its older side-table form, and a file too long for it |
| Walk, Chain, Workers, Digest, Output, CrossMember | the serial walk, the chain of chunks, stage A, resolvers, digests and the output stage; and an input on which chain and walk differ |
| Machine, InflightCap, Delivery, Threads, Endings | the threads, channels and in-flight cap as a step machine over chunk ids, the same with the data the stages pass on, and what every schedule delivers |
| SerialDecode, Stream, Pieces, Shortage, GzipHeader, StreamReader, StreamIsSerial | the two serial paths with bounded memory, the retry on a short buffer, and that both are the serial decode |
| Format, Written, ComesBack | the formats as the RFCs write them, without looking at how they are read, and the round trips both ways: bits, blocks and files |
| BlockFinder, MissedStart, SafeInflate, Engines | the finder that makes the guesses and a start it misses, the baseline decoder, and the agreement of the two decoders |

Conventions. Tokens never depend on the window, so a block is first a function from bits to tokens
(`Deflate.BlockAt`) and then tokens act on bytes (`Lz77.Apply`) or on cells (`Lz77.Blind`). Loops over
registers, arrays and buffers are methods with their invariants, proved against these functions. Integers
are unbounded; 64-bit accumulators, 16-bit cells and 32-bit positions are cut where the code cuts them. A
hint of `u64::MAX` is any number past the end of the body. Streams are `Walk.Source`s: a block and a
trailer at every bit position, so that the theorems about the chain hold for arbitrary blocks;
`Workers.SourceOf` is the one a compressed body defines.

What came out differently from what the code or its comments say:

- A chunk's marker positions are kept in 32 bits. `Speculative.PositionsMustFit` gives the exact condition
  under which that is harmless, no mark at or past 2^32 in the chunk, and `LongFile.LongFileDoesNotFit`
  gives well-formed files that break it. Stage A, the resolvers, the side table and the theorems about the
  threads ask this of the chunks the chain really delivers (`Workers.PositionsFit`) and of nothing else:
  discarded results, files of any length, and chunks that outgrow 2^32 bytes behind their last mark are all
  covered.
- The comment on the hand-off (crates/rusty-rapidgzip/src/deflate/fast_inflate.rs:1868-1872) places all
  markers before position 32768. The code does not rely on that, and rightly: it tests the last 32768
  cells, and `SpeculativeDecode.HandOff` needs no more.
- A later member of a chunk is decoded with all of the chunk's bytes as its window, and the first member of
  a chunk is resolved against all earlier output, so a distance that leaves its member is not always
  refused. `Walk.PipelineIsSerialExactly` says exactly when this shows, and `CrossMember.CrossMemberReference`
  gives 38 bytes on which it does. Such a stream is not valid under RFC 1951, and its trailers still have to
  match the bytes delivered.
- The table-driven loops insist on 48 bits before a symbol, and header lookups on ten, so they report the
  end of input on a stream with nothing behind it (`Engines.ShortInput`). `Kernels.SymbolsExactly` and
  `Engines.EnginesAgree` give the exact condition: 48 bits from the last symbol of each compressed block on.
  Inside gzip eight trailer bytes follow, which is always enough (`Engines.TrailerIsRoom`). The preloading
  loop and the window loop ask less often: they succeed wherever the others do (`Kernels.PreloadIsFair`,
  `U16Kernel.CellsAreFair`), and sometimes closer to the end, depending on what their register holds; that
  is part of their exact definitions (`Kernels.PreloadFrom`, `U16Kernel.CellsFrom`).
- In the baseline builder the count of uncoded symbols is not cleared before first codes are computed, and
  the reversal leaves bits above the code. The entries it writes are right all the same, but some short
  codes get none: `SafeHuffman.FilledSlot` says which, and `SafeHuffman.AllCodedSlots` that with every symbol
  coded these are the nine-bit codes from 256 on; in the fixed code, all literals from 144 on
  (`SafeInflate.FixedNineBits`). The walk behind the table decodes them.
- The finder's 13-bit jump can pass over a start at offset 11 or 12, and `MissedStart.VerifiedStartMissed` is
  an input where it does. `BlockFinder.FoundIsFirst` gives the exact condition: a verified start is missed
  if and only if the scan makes a full jump from 11 or 12 bits before it. This costs
  speed, never correctness, since the chain holds for arbitrary guesses.

## Model

| member | source | states |
|---|---|---|
| ComesBack.FilesComeBack | crates/rusty-rapidgzip/src/lib.rs:254-361 | Every file that can be written by RFC 1951 and RFC 1952, with any headers, blocks of all three kinds, codes, symbols, filling bits and trailers: the serial decode and the streaming path deliver exactly its data if its trailers hold the digest and the length modulo 2^32, and otherwise deliver nothing; the streaming path then reports the trailer |
| ComesBack.DeliveredIsWritten | crates/rusty-rapidgzip/src/lib.rs:254-361 | And nothing else: what the streaming path delivers is the data of some file written that way, with right trailers, and the input is that file to its last byte |
| ComesBack.FilesComeBackThroughThreads | crates/rusty-rapidgzip/src/pipeline.rs:468-1038 | For such a file, every full run of the threads under every schedule succeeds exactly when the trailers are right, and has then put the file's data into the sink |
| ComesBack.AnyBytesHaveAFile | crates/rusty-rapidgzip/src/lib.rs:254-361 | Every string of bytes is the data of such a file |
| ComesBack.WordOfFour | crates/rusty-rapidgzip/src/pipeline.rs:1139-1150 | The four low bytes of a number, written with literal powers of 256, are read as that number modulo 4294967296 |
| StreamIsSerial.StreamingIsSerial | crates/rusty-rapidgzip/src/lib.rs:254-361 | The streaming path delivers exactly when the header parses and the serial decode of what follows finishes with all members right, and then the same bytes; when it finishes with a member wrong the path reports the trailer |
| StreamIsSerial.MemberIsSerial | crates/rusty-rapidgzip/src/lib.rs:276-312 | One member's blocks take the serial walk to its trailer, or the walk never finishes |
| Written.BlocksAreWritten | crates/rusty-rapidgzip/src/deflate/inflate.rs:22-67 | At any bit of any input: the decoder has a block with these tokens, final flag and end if and only if the bits there are those the format writes for some block with that meaning |
| Written.BlockRead | crates/rusty-rapidgzip/src/deflate/inflate.rs:22-67 | One direction: every block that is written, stored, fixed or dynamic, is read as what it means, to its last bit |
| Written.ReadBlock | crates/rusty-rapidgzip/src/deflate/inflate.rs:22-67 | The other: every block that is read was written |
| Written.CodesRead | crates/rusty-rapidgzip/src/deflate/inflate.rs:74-145 | Every dynamic header that is written, with any run-length form of any two codes, is read as those codes and its end |
| Written.ReadCodes | crates/rusty-rapidgzip/src/deflate/inflate.rs:74-145 | And every one that is read was written |
| Written.ItemsRead | crates/rusty-rapidgzip/src/deflate/inflate.rs:96-133 | Lengths and repeats written with two, three and seven extra bits for 3 to 6, 3 to 10 and 11 to 138 times are read as the lengths they spell |
| Written.ReadItems | crates/rusty-rapidgzip/src/deflate/inflate.rs:96-133 | And what is read was spelled so |
| Written.OrderByRule | crates/rusty-rapidgzip/src/deflate/tables.rs:4-6 | The order of the code length codes: 16, 17, 18, 0, and then from 8 outwards |
| Written.SymbolRead | crates/rusty-rapidgzip/src/deflate/tables.rs:10-26 | A literal or match that is written is read as what it means: first length and first distance of its symbols, by arithmetic, plus the extra bits |
| Written.LengthsByRule | crates/rusty-rapidgzip/src/deflate/tables.rs:10-17 | The table of lengths is what the rule says: one apiece up to symbol 264, then four groups of each size, and 258 |
| Written.DistancesByRule | crates/rusty-rapidgzip/src/deflate/tables.rs:19-26 | The table of distances is what the rule says: one apiece up to 3, then two groups of each size |
| Written.EveryMatch | crates/rusty-rapidgzip/src/deflate/tables.rs:10-26 | Every length from 3 to 258 at every distance from 1 to 32768 has symbols and extra bits |
| Written.FixedByTable | crates/rusty-rapidgzip/src/deflate/tables.rs:29-49 | The fixed codes are those of the table in section 3.2.6 of RFC 1951, bit by bit |
| Lz77.SpeculationIsSound | crates/rusty-rapidgzip/src/deflate/fast_inflate.rs:1794-1888 | Decoding any token sequence blind and resolving it against the last min(32768, |H|) bytes of any earlier output H appends exactly what the window-known decoder appends after H; resolution fails exactly when some back-reference reaches before the start of H |
| Lz77.BlindResolves | crates/rusty-rapidgzip/src/deflate/fast_inflate.rs:2204-2228 | The same simulation from any cells already decoded: one direction gives the bytes, the other the failure |
| Lz77.BlindInWindow | crates/rusty-rapidgzip/src/deflate/tables.rs:19-26 | Marks written for tokens the format can express never point further back than 32768 bytes, so fifteen bits hold them |
| Lz77.TailResolves | crates/rusty-rapidgzip/src/pipeline.rs:1043-1078 | The trailing 32 KiB resolve a chunk exactly when the whole history does, and to the same bytes |
| Walk.PipelineIsSerial | crates/rusty-rapidgzip/src/pipeline.rs:751-855 | For any list of guessed boundaries whose last entry is past the end, the chain of chunks delivers the serial decode's bytes and member boundaries, and fails when the serial decode finds the stream corrupt, provided no distance leaves its own member; empty re-decodes and overshooting chunks included |
| Walk.PipelineIsSerialExactly | crates/rusty-rapidgzip/src/pipeline.rs:1116-1127 | The exact condition: for all guesses the pipeline and the serial decode agree, if and only if it is not the case that some distance leaves its member while staying inside the output of earlier members |
| CrossMember.CrossMemberReference | crates/rusty-rapidgzip/src/pipeline.rs:1112-1127 | Thirty-eight bytes, with the header parser of the code: a member of four bytes and a second one whose match reaches one byte into the first. The serial decode refuses them; the pipeline delivers them as one chunk whose two members pass any check for which the trailers hold the digests of their bytes, and as two chunks with three zero bytes at the end |
| CrossMember.TwoMembersAre | crates/rusty-rapidgzip/src/pipeline.rs:1135-1168 | The three blocks and two trailers the decoders find in those bytes, with their bit positions and digests |
| Walk.ChunkInStep | crates/rusty-rapidgzip/src/pipeline.rs:1080-1185 | One chunk, started anywhere the chain can stand, ends in step with the serial decode or fails with it |
| Walk.ChunkEnds | crates/rusty-rapidgzip/src/pipeline.rs:1116-1121 | A chunk's end never lies before its start or past the body, and it has passed its hint unless it finished the body |
| Walk.BlockInStep | crates/rusty-rapidgzip/src/pipeline.rs:1122-1128 | A block of a chunk's first member decoded blind, or of a later member decoded straight into the chunk's bytes with placeholders in front, keeps chunk and serial decode in step |
| Walk.EveryBlockIsLenient | crates/rusty-rapidgzip/src/pipeline.rs:794-827 | Cut at every block, the chain computes the decode in which members may copy from earlier members |
| Walk.ChainAsLong | crates/rusty-rapidgzip/src/pipeline.rs:794-827 | Whatever the chain delivers, that lenient decode delivers too, with as many bytes |
| Walk.ApplyLength | crates/rusty-rapidgzip/src/deflate/fast_inflate.rs:446-458 | Whether a back-reference is accepted depends only on how much output stands before it |
| Walk.ApplyBehind | crates/rusty-rapidgzip/src/deflate/fast_inflate.rs:446-458 | More history in front never changes a decode that succeeds without it |
| Chain.ChainToIs | crates/rusty-rapidgzip/src/pipeline.rs:776-855 | Every state of the chunk-by-chunk chain is on the way to the pipeline's one result |
| Chain.ChainEnds | crates/rusty-rapidgzip/src/pipeline.rs:554-564 | As the last work item has no hint, the last chunk always ends the run: the missing-final-block error is unreachable |
| Chain.LateFailure | crates/rusty-rapidgzip/src/pipeline.rs:1137-1145 | A worker that reports an error on a chunk ending within 64 bits of the end loses nothing: no trailer fits, so the whole decode fails |
| Chain.TailOfTail | crates/rusty-rapidgzip/src/pipeline.rs:1066-1076 | Extending a tail and cutting again is cutting the whole history |
| Workers.DecodeOneChunk | crates/rusty-rapidgzip/src/pipeline.rs:1080-1185 | The chunk loop answers exactly the chunk of the walk: cells, member boundaries, final flag and end bit; an error only when that chunk is in error or has a compressed block with fewer than 48 bits from its last symbol on |
| Workers.CrampedIsLate | crates/rusty-rapidgzip/src/pipeline.rs:1137-1145 | A chunk that is short of those 48 bits is in error itself or ends, not final, where no trailer fits |
| Workers.DecodeItem | crates/rusty-rapidgzip/src/pipeline.rs:598-619 | A worker reports on the item it took with its id, start and hint and the honest result, an error only when the chunk is in error, cramped or begins past the body |
| Workers.DecodeTurn | crates/rusty-rapidgzip/src/pipeline.rs:1114-1170 | One turn: a stretch of blocks, then trailer and next header when it ended a member; an error only for the same two reasons |
| Workers.DecodeStretch | crates/rusty-rapidgzip/src/pipeline.rs:1122-1128 | First member through 16-bit cells, later members through the byte loop, with one contract |
| Workers.DecodeMember | crates/rusty-rapidgzip/src/deflate/fast_inflate.rs:156-181 | Blocks through the preloaded loop up to the hint or a final block give the stretch's tokens applied to the output so far |
| Workers.ReadTrailer | crates/rusty-rapidgzip/src/pipeline.rs:1135-1168 | Align, read the two little-endian words, and stand at the next member's first block or at the end of the body; refuse a short trailer or a bad header |
| Workers.TrailerRoom | crates/rusty-rapidgzip/src/pipeline.rs:1139-1141 | A trailer needs 64 bits after the final block |
| Workers.ChunkBySegment | crates/rusty-rapidgzip/src/pipeline.rs:1115-1170 | Decoding a chunk block by block is decoding it stretch by stretch |
| Workers.AcceptOutcome | crates/rusty-rapidgzip/src/pipeline.rs:776-830 | Stage A's rule: the worker's result counts only if it decoded cleanly and began where the chain stands, otherwise the chunk is decoded again from there; either way the job is the chain's chunk with the right tail, and an error means the pipeline fails. Of positions it asks only that the chain's own chunks keep their marks below 2^32, which is exactly what a correct repair needs (Speculative.PositionsMustFit) |
| Workers.StageA | crates/rusty-rapidgzip/src/pipeline.rs:751-856 | For outcomes arriving in any order, with any guessed starts and any worker errors, jobs leave in id order, each the chain's chunk with the tail of all output before it; it stops early only on a final chunk, a failed chain, or a missing outcome |
| Workers.TakeNext | crates/rusty-rapidgzip/src/pipeline.rs:777-841 | The next outcome in id order becomes the next job and moves the anchor |
| Speculative.SpeculativeChunk.BuildPrevTail | crates/rusty-rapidgzip/src/pipeline.rs:1045-1078 | Looking only at the markers in the chunk's tail, it returns the last 32 KiB of previous tail plus resolved chunk, for chunks shorter than the window too, and for chunks of any length whose marks lie below 2^32 |
| Speculative.SpeculativeChunk.ResolveTail | crates/rusty-rapidgzip/src/pipeline.rs:1045-1064 | The markers from the partition point on patch exactly the tail's marked bytes |
| Speculative.SpeculativeChunk.PartitionPoint | crates/rusty-rapidgzip/src/pipeline.rs:1049-1052 | Splits the sorted markers at a position |
| Speculative.SpeculativeChunk.ExtractFromU16 | crates/rusty-rapidgzip/src/deflate/speculative.rs:66-142 | Two passes, narrow then record, append to bytes and markers what the cells mean; placeholders are 0 and markers stay sorted |
| Speculative.SpeculativeChunk.ResolveMarkers | crates/rusty-rapidgzip/src/deflate/speculative.rs:175-213 | Overwrites every marked byte from the tail and clears the markers, or reports the first marker the tail does not reach |
| Speculative.SpeculativeChunk.Extend | crates/rusty-rapidgzip/src/deflate/fast_inflate.rs:1868-1884 | Plain bytes after the hand-off add no marker |
| Speculative.LoweredResolves | crates/rusty-rapidgzip/src/deflate/speculative.rs:175-213 | Lowering cells to bytes and markers and patching later is resolving the cells, success and bytes alike |
| Speculative.MarksComplete | crates/rusty-rapidgzip/src/deflate/speculative.rs:46-50 | The markers list exactly the marked cells, in strictly increasing position |
| Speculative.PositionsMustFit | crates/rusty-rapidgzip/src/deflate/speculative.rs:12-17 | Keeping positions in 32 bits is harmless exactly for chunks with no mark at or past 2^32: for any other chunk some full window is resolved to wrong bytes |
| Speculative.FourGigabytesFit | crates/rusty-rapidgzip/src/deflate/speculative.rs:12-17 | Every chunk of at most 4294967296 cells meets that condition |
| Speculative.LongRunsDoNotFit | crates/rusty-rapidgzip/src/deflate/speculative.rs:66-142 | Blocks reach that limit: a run of 258-byte matches long enough to pass 2^32, as a well-formed token sequence, is resolved by the 32-bit marker list to other bytes than its own |
| LongFile.LongFileDoesNotFit | crates/rusty-rapidgzip/src/deflate/speculative.rs:12-17 | Whole files that reach the limit, from about 27 megabytes on and with any trailer: the serial decode finishes, but with the true block boundary at bit 48 as a guess the chain has a chunk whose 32-bit marker list leaves other bytes than the serial decode |
| Speculative.CellMasks | crates/rusty-rapidgzip/src/deflate/speculative.rs:41-41 | The masks on a 16-bit cell: the flag test, the low fifteen bits, and the or that builds a marker |
| Speculative.CellRoundTrip | crates/rusty-rapidgzip/src/deflate/speculative.rs:48-50 | A cell survives encoding in sixteen bits |
| Speculative.TailCarry | crates/rusty-rapidgzip/src/pipeline.rs:1066-1076 | The end of the previous tail in front of a short chunk is the new tail |
| SpeculativeDecode.DecodeUntilU16 | crates/rusty-rapidgzip/src/deflate/fast_inflate.rs:1794-1888 | Both phases together: the chunk gains the cells of the whole stretch decoded blind, whichever block the hand-off falls on; end bit and final flag are the stretch's; an error only for a bad stretch or one with a compressed block short of 48 bits from its last symbol on |
| SpeculativeDecode.CrampedEnds | crates/rusty-rapidgzip/src/deflate/fast_inflate.rs:1831-1842 | A stretch short of those bits ends within 48 bits of the end of the input |
| SpeculativeDecode.HandOff | crates/rusty-rapidgzip/src/deflate/fast_inflate.rs:1843-1887 | Once the last 32768 cells hold no mark, no later token reads one: byte decoder and cell decoder go on to the same bytes and no marker is added, whatever placeholders stand further back |
| SpeculativeDecode.WindowFree | crates/rusty-rapidgzip/src/deflate/fast_inflate.rs:1851-1855 | The scan of the retained window answers true exactly when the history's last 32768 cells are bytes |
| SpeculativeDecode.SpeculativePhase | crates/rusty-rapidgzip/src/deflate/fast_inflate.rs:1827-1858 | Blocks through the window until the stretch ends or the window is free |
| SpeculativeDecode.FinishBytes | crates/rusty-rapidgzip/src/deflate/fast_inflate.rs:1868-1887 | Blocks through the byte loop into the chunk's bytes, to the end of the stretch |
| SpeculativeDecode.DecodeBlockU16 | crates/rusty-rapidgzip/src/deflate/fast_inflate.rs:1914-1935 | One block of any type extends the cell history by its tokens decoded blind |
| SpeculativeDecode.DecodeStoredU16 | crates/rusty-rapidgzip/src/deflate/fast_inflate.rs:1937-1963 | A stored block of any length passes through the fixed window in pieces, flushing between them |
| SpeculativeDecode.SegmentFacts | crates/rusty-rapidgzip/src/deflate/fast_inflate.rs:1831-1842 | A stretch ends at a final block or at the first block end at or past the hint, inside the input |
| U16Kernel.DecodeCompressedU16 | crates/rusty-rapidgzip/src/deflate/fast_inflate.rs:2008-2234 | The whole symbol loop over cells, exactly: for every register and window it starts with, it ends, errs or runs out of bits where the definition says, which tells when a refill is asked for, when the literal run goes on without one, and when the window is flushed |
| U16Kernel.CellsAreFair | crates/rusty-rapidgzip/src/deflate/fast_inflate.rs:2008-2234 | What that definition means: a success is the block decoded blind; whenever the block is well formed with 48 bits from its last symbol on it succeeds, wherever register and window stand; and it calls no well-formed block invalid |
| U16Kernel.LiteralRunU16 | crates/rusty-rapidgzip/src/deflate/fast_inflate.rs:2121-2143 | The preloaded literal sub-loop stops on its bit budget, a long code or a full window, without losing or repeating a symbol |
| U16Kernel.MatchU16 | crates/rusty-rapidgzip/src/deflate/fast_inflate.rs:2157-2228 | A match, with its refill when fewer than 33 bits are left and its end of input exactly when that refill falls short, does what the blind copy does |
| U16Kernel.DecodeIteration | crates/rusty-rapidgzip/src/deflate/fast_inflate.rs:2090-2229 | One turn of the loop: flush when full, symbol, literal run or match |
| U16Window.Window.Match | crates/rusty-rapidgzip/src/deflate/fast_inflate.rs:2204-2228 | Markers for the part before the chunk, then an in-buffer copy: the history becomes the blind copy and every write stays inside the fixed buffer |
| U16Window.Window.Flush | crates/rusty-rapidgzip/src/deflate/fast_inflate.rs:1901-1912 | Emits all but the last 32 Ki cells and slides the window down; flushed plus live cells stay the whole history |
| U16Window.Window.CopyInside | crates/rusty-rapidgzip/src/deflate/fast_inflate.rs:1973-2004 | A copy inside the live window, overshoot included, appends the copied cells and never depends on stale ones |
| U16Window.Window.WriteMarkers | crates/rusty-rapidgzip/src/deflate/fast_inflate.rs:2209-2215 | Cells that reach into the unknown prefix, with the offset formula that needs no window base |
| U16Window.Window.LowerAll | crates/rusty-rapidgzip/src/deflate/fast_inflate.rs:1860-1866 | At the hand-off or the end the live cells go into the chunk |
| U16Window.CopyDecodes | crates/rusty-rapidgzip/src/deflate/fast_inflate.rs:1973-2004 | Copying 16-bit cells copies what they mean |
| CopyKernels.CopyBackRaw | crates/rusty-rapidgzip/src/deflate/fast_inflate.rs:709-737 | Wide chunks with overshoot, one-byte broadcast or element by element: bytes before the cursor stay, the copy equation holds, and nothing past the overshoot changes |
| CopyKernels.CopyWithTailStore | crates/rusty-rapidgzip/src/deflate/inflate.rs:379-445 | Eight-byte steps with an overlapping tail store give the same copy and write nothing past it |
| CopyKernels.CopyBackSafe | crates/rusty-rapidgzip/src/deflate/safe_inflate.rs:183-202 | The safe variant gives the same copy |
| CopyKernels.CopyChunked | crates/rusty-rapidgzip/src/deflate/fast_inflate.rs:687-700 | The chunked copy of a non-overlapping match |
| Lz77.CopyBackUnique | crates/rusty-rapidgzip/src/deflate/fast_inflate.rs:702-737 | The copy equation determines the result |
| Lz77.CopyBackAt | crates/rusty-rapidgzip/src/deflate/fast_inflate.rs:702-737 | A copy leaves what was there and satisfies out[i] = out[i - distance] |
| MarkerTable.DecodeTokens | crates/rusty-rapidgzip/src/deflate/fast_inflate.rs:67-106 | For every token sequence whose marks keep to positions of 32 bits the side-table decoder gives the chunk exactly the bytes and marker list of the dense cells |
| MarkerTable.Context.PropagateMatch | crates/rusty-rapidgzip/src/deflate/inflate/speculative.rs:70-138 | With its retiring cursor, early exits and moving maximum it adds exactly the markers of the copied marks, including marks this copy has just pushed |
| MarkerTable.Context.RecordMatchPrefix | crates/rusty-rapidgzip/src/deflate/inflate/speculative.rs:44-63 | One marker for each byte of a match before the chunk |
| MarkerTable.Context.Retire | crates/rusty-rapidgzip/src/deflate/inflate/speculative.rs:95-107 | Retired markers lie out of reach of every later back-reference |
| MarkerTable.Context.FirstFrom | crates/rusty-rapidgzip/src/deflate/inflate/speculative.rs:110-111 | Searching only the live markers finds the first one at or past a position that can still be a source |
| MarkerTable.SideMatch | crates/rusty-rapidgzip/src/deflate/fast_inflate.rs:1634-1703 | A match split into placeholders and in-buffer copy |
| MarkerTable.CopyOfBytes | crates/rusty-rapidgzip/src/deflate/inflate/speculative.rs:82-88 | Copying from behind the last marker adds none, which justifies the early exits |
| MarkerTable.BytesOffsetMarkers | crates/rusty-rapidgzip/src/deflate/speculative.rs:144-166 | Shifting the table's markers behind the chunk's earlier output gives the markers of the joined cells |
| MarkerTable.MarksOfConcat | crates/rusty-rapidgzip/src/deflate/speculative.rs:144-166 | Markers of a concatenation |
| Huffman.HuffmanDecoder.Build | crates/rusty-rapidgzip/src/deflate/huffman.rs:215-325 | Accepts exactly the length vectors that are short and not over-subscribed (and, strictly, complete: CodeSpace.StrictAccepts), and then every 10-bit slot and the long-code list hold the canonical code of section 3.2.2 of RFC 1951 |
| CodeSpace.StrictAccepts | crates/rusty-rapidgzip/src/deflate/huffman.rs:215-247 | What the strict builder accepts, without sums over lengths: lengths up to 15, codes that fit in the 2^15 windows, and, unless at most one symbol has a code, a code that decodes every window |
| CodeSpace.TolerantAccepts | crates/rusty-rapidgzip/src/deflate/huffman.rs:215-247 | What the tolerant builder accepts: lengths up to 15 and codes that fit |
| CodeSpace.CodeIsSpaceBefore | crates/rusty-rapidgzip/src/deflate/huffman.rs:270-322 | A symbol's code is the share of all symbols before it, in order of length and symbol: the codes stand without a gap |
| CodeSpace.DecodedBelow | crates/rusty-rapidgzip/src/deflate/huffman.rs:379-389 | A window is decoded if and only if it lies below the end of the last code |
| Huffman.NextReversed | crates/rusty-rapidgzip/src/deflate/huffman.rs:285-292 | The carry loop turns the reversal of a code into the reversal of the next one |
| Huffman.LengthenReversed | crates/rusty-rapidgzip/src/deflate/huffman.rs:314-321 | Moving to the next code length leaves the reversed code as it is |
| Huffman.HuffmanDecoder.FillSlots | crates/rusty-rapidgzip/src/deflate/huffman.rs:280-284 | A code's stride of slots: each was still free, so no slot is written by two symbols |
| Huffman.HuffmanDecoder.EnterSymbols | crates/rusty-rapidgzip/src/deflate/huffman.rs:270-322 | All symbols of one length in order, table or list |
| Huffman.SortSymbols | crates/rusty-rapidgzip/src/deflate/huffman.rs:249-263 | The counting sort puts every coded symbol at its canonical rank |
| Huffman.HuffmanDecoder.LookupLong | crates/rusty-rapidgzip/src/deflate/huffman.rs:379-389 | The list scan finds exactly the long code that starts the fifteen bits ahead, or none |
| Huffman.HuffmanDecoder.LookupBuffered | crates/rusty-rapidgzip/src/deflate/huffman.rs:346-355 | Table, then list: exactly the canonical symbol and its length, or no match when no code is a prefix |
| Huffman.HuffmanDecoder.Lookup | crates/rusty-rapidgzip/src/deflate/huffman.rs:358-367 | The header's lookup, which wants ten bits even for a shorter code |
| Huffman.HuffmanDecoder.LutDecides | crates/rusty-rapidgzip/src/deflate/huffman.rs:346-350 | A table slot is nonzero exactly when a code of at most ten bits starts the window |
| Canonical.MatchUnique | crates/rusty-rapidgzip/src/deflate/huffman.rs:379-389 | No two symbols have codes that start the same window |
| Canonical.KraftDecides | crates/rusty-rapidgzip/src/deflate/huffman.rs:236-244 | The Kraft sum test decides whether the code fits |
| Canonical.LeftDecides | crates/rusty-rapidgzip/src/deflate/safe_inflate.rs:293-299 | The running count of codes left decides the same: the two builders accept the same vectors |
| Canonical.KraftSmall | crates/rusty-rapidgzip/src/deflate/huffman.rs:241-244 | With fewer than two symbols the sum test may be skipped |
| Canonical.SymLocal | crates/rusty-rapidgzip/src/deflate/huffman.rs:379-389 | Fifteen bits decide the symbol |
| Canonical.MsbVersusLow | crates/rusty-rapidgzip/src/deflate/huffman.rs:383-384 | Comparing the low bits with the reversed code is comparing the leading bits with the code |
| Tables.LengthRange | crates/rusty-rapidgzip/src/deflate/tables.rs:10-17 | Length symbols copy 3 to 258 bytes; which ones is Written.LengthsByRule |
| Tables.DistanceRange | crates/rusty-rapidgzip/src/deflate/tables.rs:19-26 | Distance symbols reach 1 to 32768 bytes back |
| Tables.EntryLitLen | crates/rusty-rapidgzip/src/deflate/huffman.rs:397-413 | What the flags and fields of a literal/length entry say about its symbol, 256, 286 and 287 included |
| Tables.EntryDist | crates/rusty-rapidgzip/src/deflate/huffman.rs:415-426 | The same for distance entries |
| Tables.PackIsOr | crates/rusty-rapidgzip/src/deflate/huffman.rs:396-413 | The shifted or of the fields never overlaps |
| SafeHuffman.Table.Construct | crates/rusty-rapidgzip/src/deflate/safe_inflate.rs:278-338 | Accepts exactly the short, not over-subscribed vectors, and returns the codes left over; then counts and symbols are the canonical ones and every 9-bit slot is known: its symbol, or 0 where the fill starts past it |
| SafeHuffman.AllCodedSlots | crates/rusty-rapidgzip/src/deflate/safe_inflate.rs:311-336 | When every symbol is coded a slot is filled exactly when its code is below 256: the ninth bit of a code comes out of the last, unmasked swap above the table, so those symbols are left to the walk |
| SafeInflate.FixedNineBits | crates/rusty-rapidgzip/src/deflate/safe_inflate.rs:500-525 | In the fixed code, no literal from 144 on has a slot: the slot its code selects stays 0 |
| SafeInflate.SlotNineteenEmpty | crates/rusty-rapidgzip/src/deflate/safe_inflate.rs:500-525 | The first of them: slot 19 shows the code of 144 and is 0 |
| SafeHuffman.Table.FillLut | crates/rusty-rapidgzip/src/deflate/safe_inflate.rs:311-336 | Filling with first codes that count the uncoded symbols in, and a bit reversal that leaves junk above, still makes only right entries |
| SafeHuffman.Table.NextCodes | crates/rusty-rapidgzip/src/deflate/safe_inflate.rs:314-319 | What the uncleared zero count does to the first codes |
| SafeHuffman.ReverseBitsLow | crates/rusty-rapidgzip/src/deflate/safe_inflate.rs:89-98 | The swap network reverses the code's bits, whatever stands above them |
| SafeHuffman.Table.DecodeShort | crates/rusty-rapidgzip/src/deflate/safe_inflate.rs:242-269 | The walk returns the canonical symbol and its length when the buffered bits cover it, otherwise an error that says which |
| SafeHuffman.Table.Walk | crates/rusty-rapidgzip/src/deflate/safe_inflate.rs:249-267 | The bit-by-bit walk over counts finds the canonical code that starts the window |
| SafeHuffman.BufferedWindow | crates/rusty-rapidgzip/src/deflate/safe_inflate.rs:242-269 | A code the buffered bits cover matches the buffer exactly when it matches the stream |
| BitStream.BitReader.TopUp | crates/rusty-rapidgzip/src/deflate/fast_inflate.rs:1494-1513 | The branch-free refill (or-in eight bytes, advance (63 ^ bits) >> 3, bits |= 56): the accumulator keeps agreeing with the stream above the valid count, so repeated or-ing is harmless; bits stays at most 63 and the position does not move |
| BitStream.BitReader.Refill | crates/rusty-rapidgzip/src/deflate/bitreader.rs:100-130 | Fails exactly when the stream holds fewer than n more bits, and never moves the position |
| BitStream.BitReader.LoadWord | crates/rusty-rapidgzip/src/deflate/bitreader.rs:106-118 | An eight-byte load behind the counted bits keeps buffer and stream in agreement |
| BitStream.BitReader.Read | crates/rusty-rapidgzip/src/deflate/bitreader.rs:134-144 | Returns the next n bits of the LSB-first stream |
| BitStream.BitReader.Peek | crates/rusty-rapidgzip/src/deflate/bitreader.rs:150-155 | The same without consuming |
| BitStream.BitReader.Consume | crates/rusty-rapidgzip/src/deflate/bitreader.rs:159-163 | Moves the position by n, keeping agreement |
| BitStream.BitReader.ByteAlign | crates/rusty-rapidgzip/src/deflate/bitreader.rs:69-73 | Moves to the next byte boundary, less than eight bits on |
| BitStream.BitReader.SeekToBit | crates/rusty-rapidgzip/src/deflate/bitreader.rs:173-192 | Repositions exactly when the target is inside the input |
| BitStream.AgreesLoad | crates/rusty-rapidgzip/src/deflate/fast_inflate.rs:1486-1498 | Bits or-ed in again from bytes already passed are the stream's own bits |
| Words.WideRefillCount | crates/rusty-rapidgzip/src/deflate/fast_inflate.rs:1495-1498 | (63 ^ bits) >> 3 whole bytes is what bits |= 56 counts, for every count up to 63 |
| BitStream.ValExtend | crates/rusty-rapidgzip/src/lib.rs:182-210 | Bits inside the input do not depend on what follows it |
| Deflate.StepValid | crates/rusty-rapidgzip/src/deflate/tables.rs:10-26 | Every match the stream can express copies 3 to 258 bytes from 1 to 32768 back |
| Deflate.RunFacts | crates/rusty-rapidgzip/src/deflate/fast_inflate.rs:1478-1734 | A block's symbols move forward inside the input |
| Deflate.BlockFacts | crates/rusty-rapidgzip/src/deflate/inflate.rs:22-32 | A block ends after it starts, inside the input, with tokens the format can express |
| Deflate.StrictIsTolerant | crates/rusty-rapidgzip/src/deflate/block_finder.rs:196-262 | Whenever the finder's strict header parse succeeds the decoder's tolerant parse succeeds from the same bit with the same code lengths and end |
| Deflate.FixedFit | crates/rusty-rapidgzip/src/deflate/tables.rs:29-49 | The fixed codes are accepted by the builders |
| Kernels.DecodeCompressed | crates/rusty-rapidgzip/src/deflate/fast_inflate.rs:1420-1734 | The double-literal loop answers, for every input, exactly what the loop with one symbol per turn does: bytes, end, and each error |
| Kernels.DecodeCompressedPreload | crates/rusty-rapidgzip/src/deflate/fast_inflate.rs:211-462 | The preloaded loop answers exactly its definition, which follows the register's load through the run, its in-line refills and the refills of a match |
| Kernels.SymbolsExactly | crates/rusty-rapidgzip/src/deflate/inflate.rs:148-372 | The loop with one symbol per turn succeeds if and only if the block is well formed, its distances stay inside the output and 48 bits are there from its last symbol on; then it appends what the tokens mean, and invalid is never said of a good block |
| Kernels.PreloadIsFair | crates/rusty-rapidgzip/src/deflate/fast_inflate.rs:211-462 | The preloading loop succeeds wherever that one does, with the same bytes and end, and whatever it succeeds with is the block; so the loops consume the same symbols and append the same bytes |
| Kernels.LiteralUnasked | crates/rusty-rapidgzip/src/deflate/fast_inflate.rs:1538-1563 | Taking a literal without asking for its 48 bits changes no answer |
| Kernels.LiteralRun | crates/rusty-rapidgzip/src/deflate/fast_inflate.rs:299-325 | Its literal sub-loop refills in place and stops before the first symbol that is not a short literal |
| Kernels.OtherSymbol | crates/rusty-rapidgzip/src/deflate/fast_inflate.rs:327-408 | End of block, long codes and lengths after the literal run |
| Kernels.SecondLiteral | crates/rusty-rapidgzip/src/deflate/fast_inflate.rs:1538-1563 | A second literal is taken without a refill only when the direct table has it |
| Kernels.CopyMatch | crates/rusty-rapidgzip/src/deflate/fast_inflate.rs:410-458 | Distance symbol, bounds check and copy append what the token means or fail with it |
| Kernels.MatchWithRefills | crates/rusty-rapidgzip/src/deflate/fast_inflate.rs:410-413 | A match whose length was read late refills when fewer than 28 bits are left and never runs short |
| Kernels.LengthWithRefills | crates/rusty-rapidgzip/src/deflate/fast_inflate.rs:358-384 | Length extra bits and distance of a long length code, with refills in between |
| Blocks.ReadDynamicHeader | crates/rusty-rapidgzip/src/deflate/inflate.rs:74-145 | Both parsers, tolerant and strict, return exactly the header the bits announce, or its error, for every input |
| Blocks.ReadOneLength | crates/rusty-rapidgzip/src/deflate/inflate.rs:96-133 | One code-length symbol or repeat, with every overrun and missing predecessor refused; what the repeats can say is Written.ItemsRead |
| Blocks.DecodeStored | crates/rusty-rapidgzip/src/deflate/fast_inflate.rs:610-627 | A stored block byte by byte, with its length check and both end-of-input cases |
| Blocks.ReadStoredLength | crates/rusty-rapidgzip/src/deflate/inflate.rs:43-51 | The length and its one's complement |
| Blocks.DecodeOneBlock | crates/rusty-rapidgzip/src/deflate/fast_inflate.rs:577-608 | One block by either byte loop: exactly the streaming decoder's answer with the double-literal loop, errors included; with the preloaded loop the same success wherever the streaming decoder has one |
| Blocks.StreamExactly | crates/rusty-rapidgzip/src/deflate/inflate.rs:22-67 | The streaming decoder has a block if and only if it is well formed, its distances stay inside the output, and a compressed one has 48 bits from its last symbol on |
| Blocks.AnswerFails | crates/rusty-rapidgzip/src/deflate/fast_inflate.rs:577-608 | An error of either byte decoder has one of these reasons, and the last only within 48 bits of the end of the input |
| Words.XorComplement | crates/rusty-rapidgzip/src/deflate/safe_inflate.rs:601-601 | Two words differ in every bit exactly when they are complements |
| Stream.InflateBlock | crates/rusty-rapidgzip/src/deflate/inflate.rs:22-67 | The streaming block decoder is exact: for every input it returns the block, the invalid-stream error or the end-of-input error that the definition gives |
| Stream.DecodeSymbols | crates/rusty-rapidgzip/src/deflate/inflate.rs:148-372 | One symbol per turn, 48 bits insisted on before each |
| Pieces.PieceBlock | crates/rusty-rapidgzip/src/lib.rs:182-210 | A block decode on a buffered piece that succeeds or reports an invalid stream gives the same answer on the whole stream, wherever the piece was cut out |
| Shortage.MoreBytesSettle | crates/rusty-rapidgzip/src/lib.rs:182-210 | Whatever has been read, some more bytes settle the block one way or the other: an unexpected end is never said of a stream that cannot go on |
| Pieces.PieceSymbols | crates/rusty-rapidgzip/src/deflate/inflate.rs:148-372 | The same for the symbols of a block |
| Pieces.PieceHeader | crates/rusty-rapidgzip/src/deflate/inflate.rs:74-145 | The same for a dynamic header |
| Pieces.PieceLookup | crates/rusty-rapidgzip/src/deflate/huffman.rs:358-367 | The same for one lookup, although a short code is settled by ten bits and others by fifteen |
| StreamReader.StreamBuf.DecodeBlock | crates/rusty-rapidgzip/src/lib.rs:182-210 | For every sequence of read sizes the retry loop returns what decoding the block on the whole stream would, leaves the output as that does, and stands at its end |
| StreamReader.StreamBuf.FillMore | crates/rusty-rapidgzip/src/lib.rs:159-168 | A read extends the buffer by what the source has next, or finds its end |
| StreamReader.StreamBuf.FillAtLeast | crates/rusty-rapidgzip/src/lib.rs:170-178 | Succeeds exactly when the stream has that many bytes |
| StreamReader.StreamBuf.ReadGzipHeader | crates/rusty-rapidgzip/src/lib.rs:233-249 | The header retry loop returns what parsing the whole stream would |
| StreamReader.StreamBuf.ByteAlign | crates/rusty-rapidgzip/src/lib.rs:214-219 | Skips the partly consumed byte |
| StreamReader.ReadMember | crates/rusty-rapidgzip/src/lib.rs:276-312 | Emitting all but 32 KiB after each block and draining refines unbounded history: the sink gets the member's bytes, the digest sees each once, errors are the same |
| StreamReader.BlockWindow | crates/rusty-rapidgzip/src/lib.rs:286-311 | With 32 KiB kept a block decodes as with the whole history, back-references accepted or refused alike |
| StreamReader.ReadGzStreaming | crates/rusty-rapidgzip/src/lib.rs:254-361 | The whole streaming path: for every sequence of read sizes, the members' bytes and the errors are those of the complete stream with unbounded memory, which is the serial decode (StreamIsSerial.StreamingIsSerial) |
| StreamReader.ReadOne | crates/rusty-rapidgzip/src/lib.rs:274-351 | One member: header, blocks, trailer check |
| GzipHeader.HeaderStays | crates/rusty-rapidgzip/src/gzip.rs:252-300 | A header that parses, or is refused, does so whatever bytes follow |
| GzipHeader.ShortCanGoOn | crates/rusty-rapidgzip/src/gzip.rs:252-300 | A header of ten bytes or more that is called short can go on to be a header |
| GzipHeader.LayoutParses | crates/rusty-rapidgzip/src/gzip.rs:252-300 | For all fields, flags and following bytes, the header laid out by section 2.3 of RFC 1952 is parsed to its very end |
| GzipHeader.ParsedIsLayout | crates/rusty-rapidgzip/src/gzip.rs:252-300 | And what is parsed is the layout of some fields: nothing else is accepted |
| GzipHeader.SkipZString | crates/rusty-rapidgzip/src/gzip.rs:353-360 | Just past the first zero byte from there on, or nothing when there is none |
| SerialDecode.DecodeMembers | crates/rusty-rapidgzip/src/pipeline.rs:1211-1345 | The bounded-memory serial decoder judges as the serial decode with unbounded memory does: success exactly with its bytes in the sink and all members right, mismatch, failure, or a consumer that left |
| SerialDecode.WindowEnough | crates/rusty-rapidgzip/src/pipeline.rs:1217-1219 | A back-reference is accepted by the bounded loop exactly when it is accepted with full history, and expands alike |
| SerialDecode.EmitWindows | crates/rusty-rapidgzip/src/pipeline.rs:1265-1284 | Emitted bytes plus the retained buffer stay the member's output, with a full window kept |
| SerialDecode.FinishMember | crates/rusty-rapidgzip/src/pipeline.rs:1286-1344 | Flush, trailer, checks, and a fresh window for the next member |
| SerialDecode.HoldingFails | crates/rusty-rapidgzip/src/pipeline.rs:1262-1263 | A block error behind the window means the serial decode cannot finish |
| Digest.ChunkPieces | crates/rusty-rapidgzip/src/pipeline.rs:706-718 | A chunk's pieces are the digests and lengths of its parts between boundaries |
| Digest.StitchMember | crates/rusty-rapidgzip/src/pipeline.rs:881-909 | Joining the piece up to a boundary checks exactly that member's bytes and length modulo 2^32 |
| Digest.StitchTail | crates/rusty-rapidgzip/src/pipeline.rs:912-916 | Joining the rest carries the member on |
| Digest.ChunkOrdered | crates/rusty-rapidgzip/src/pipeline.rs:1153-1158 | A chunk's boundaries are in order and inside its bytes, so the slices of the digest loop are in range |
| Output.Resolve | crates/rusty-rapidgzip/src/pipeline.rs:698-741 | A resolver turns a right job into the chain's next bytes with right pieces, or fails when the chain does |
| Output.StitchChunk | crates/rusty-rapidgzip/src/pipeline.rs:884-916 | For every way of cutting members across chunks: all members completed by this chunk are right, or one of them is wrong |
| Output.OutputStage | crates/rusty-rapidgzip/src/pipeline.rs:873-972 | Messages in any order: the sink gets the chain's chunks once each, in order; success means the whole output with every member right, mismatch that some member is wrong, failure that the pipeline failed; a missing final block cannot happen |
| Output.EmitNext | crates/rusty-rapidgzip/src/pipeline.rs:874-945 | One chunk checked, then sent, then the run ends or goes on; on success or a mismatch the verdict on the whole output follows |
| Output.WrongMember | crates/rusty-rapidgzip/src/pipeline.rs:889-905 | A member found wrong inside a chunk is wrong in all the output up to the chunk's end |
| Output.BadStaysBad | crates/rusty-rapidgzip/src/pipeline.rs:889-905 | A member found wrong in the chain's output so far is wrong in whatever the chain delivers in the end |
| Machine.EveryRun | crates/rusty-rapidgzip/src/pipeline.rs:601-972 | In every run of the threads: chunks reach the sink once each and in id order; slots acquired minus released are the count in flight, never above the limit; and no run is longer than 12 steps a chunk plus a few per thread |
| Machine.EveryFullRun | crates/rusty-rapidgzip/src/pipeline.rs:601-1003 | A run that can go no further has stopped every thread; if the consumer kept receiving, it succeeded with exactly the chunks up to the final one when those are good, and otherwise ended in an error, under every schedule |
| Machine.NoDeadlock | crates/rusty-rapidgzip/src/pipeline.rs:601-1003 | Any state of any run that is not over has an enabled step, before and during tear-down |
| Machine.InvKept | crates/rusty-rapidgzip/src/pipeline.rs:601-972 | Every step of every thread keeps the invariant |
| Machine.UpstreamKept | crates/rusty-rapidgzip/src/pipeline.rs:604-641 | No id is lost or doubled between dispatch and stage A |
| Machine.DownstreamKept | crates/rusty-rapidgzip/src/pipeline.rs:688-841 | No id is lost or doubled between stage A and the sink |
| Machine.AccountsKept | crates/rusty-rapidgzip/src/pipeline.rs:315-335 | Acquired, released and in-flight counts, and the sink's order |
| Machine.NeverAbandoned | crates/rusty-rapidgzip/src/pipeline.rs:967-970 | The resolve channel never closes while the output still waits |
| Machine.NothingComing | crates/rusty-rapidgzip/src/pipeline.rs:843-851 | When the worker channel closes on a waiting stage A it has seen every chunk |
| Machine.LeftShrinks | crates/rusty-rapidgzip/src/pipeline.rs:601-972 | Each step uses up the measure |
| Machine.RunningSteps | crates/rusty-rapidgzip/src/pipeline.rs:601-972 | While the output runs some thread can step |
| Machine.StoppingSteps | crates/rusty-rapidgzip/src/pipeline.rs:989-1003 | After it has stopped, some thread can step until all have left |
| Machine.CaughtUp | crates/rusty-rapidgzip/src/pipeline.rs:873-972 | With nothing on its way to it, the output has seen all that stage A passed on |
| Threads.EveryScheduleIsSerial | crates/rusty-rapidgzip/src/pipeline.rs:468-1038 | Every full run of the threads with their data, under every schedule and for everything the stages' contracts let them produce, stops all threads, if the consumer keeps receiving and the chain's chunks have no mark at or past 2^32. It has succeeded exactly when the chain delivers with all members right, and the bytes in the sink are then the chain's; unless a distance leaves its member while staying inside earlier members' output, that is exactly when the serial decode finishes with all members right, and its bytes |
| Threads.EveryRunIsOnTheWay | crates/rusty-rapidgzip/src/pipeline.rs:468-1038 | At every point of every run the bytes in the sink are a beginning of what the chain delivers, and of the serial decode's output when that finishes; and a run is no longer than 12 steps a chunk plus a few per thread |
| Threads.EveryRunEnds | crates/rusty-rapidgzip/src/pipeline.rs:468-1038 | Every run goes on to a full one, so the statement about full runs is about every way the threads can go |
| Threads.WorldKept | crates/rusty-rapidgzip/src/pipeline.rs:601-972 | Every step of every thread keeps reports, tasks, resolved chunks, running digest and sink what the chain says they are |
| Threads.FoundFollows | crates/rusty-rapidgzip/src/pipeline.rs:751-972 | Derived from the stages' contracts: what the stages have found of each chunk is what the chain says of it |
| Threads.RunAsFound | crates/rusty-rapidgzip/src/pipeline.rs:601-972 | The ids of such a run go through a run of the machine with those verdicts |
| Threads.ThreadsGoOn | crates/rusty-rapidgzip/src/pipeline.rs:601-972 | No contract is too strong to be met: wherever the machine has a step, a thread with data has one |
| Threads.StageCanAnswer | crates/rusty-rapidgzip/src/pipeline.rs:776-830 | Stage A has an answer to every chunk: a task exactly when the chain goes through it |
| Threads.OutputCanAnswer | crates/rusty-rapidgzip/src/pipeline.rs:874-945 | The output has an answer to every chunk, right or wrong, last or not |
| Delivery.FullRunIsChain | crates/rusty-rapidgzip/src/pipeline.rs:751-1003 | A full run of the machine whose verdicts are the chain's succeeds exactly when the chain delivers with all members right, with the chain's chunks up to the last one sent |
| Delivery.GoodExactly | crates/rusty-rapidgzip/src/pipeline.rs:751-972 | Some chunk ends a good run exactly when the chain delivers and every member is right |
| InflightCap.Cap.TryAcquire | crates/rusty-rapidgzip/src/pipeline.rs:315-327 | One turn of a waiting dispatcher under the lock: it claims, stops or waits exactly when the machine's dispatcher can acquire, is refused, or has no step, and keeps the machine's counts |
| InflightCap.Cap.Release | crates/rusty-rapidgzip/src/pipeline.rs:330-335 | A slot comes back; the count never goes below zero, and follows the machine's |
| InflightCap.ChunkHoldsSlot | crates/rusty-rapidgzip/src/pipeline.rs:918-924 | Whenever the output has a chunk to emit a slot is out, so the saturating subtraction never hides a lost one |
| InflightCap.MaxFor | crates/rusty-rapidgzip/src/pipeline.rs:351-375 | The limit: factor times threads, at least the floor, or no cap |
| BlockFinder.FindNextDynamicBlock | crates/rusty-rapidgzip/src/deflate/block_finder.rs:109-141 | Exactly the first verified start among the offsets the jumps stop at, in the range asked for |
| BlockFinder.FoundIsFirst | crates/rusty-rapidgzip/src/deflate/block_finder.rs:109-141 | Exactly what the finder misses: a verified start of the range is the answer if and only if the scan does not jump over it and jumps over every earlier one; there is no answer if and only if it jumps over all of them. To jump over is to make a full 13-bit jump from 11 or 12 bits before, with the scan begun where the range begins |
| BlockFinder.PassedOverExactly | crates/rusty-rapidgzip/src/deflate/block_finder.rs:81-141 | A scan from any position passes over a place that looks like a start if and only if it makes a full jump from 11 or 12 bits before it |
| BlockFinder.FirstStartFound | crates/rusty-rapidgzip/src/deflate/block_finder.rs:109-141 | So the first verified start of a range is found if and only if it is not jumped over |
| BlockFinder.FoundParses | crates/rusty-rapidgzip/src/deflate/block_finder.rs:175-189 | Whatever the finder returns parses as a dynamic header in the decoder, with the same codes and end, and 64 well-formed symbols or a whole block follow |
| BlockFinder.StartsAreVerified | crates/rusty-rapidgzip/src/deflate/block_finder.rs:175-189 | And every strict header with 64 well-formed symbols behind it is verified, wherever the input goes on for as many bits as 64 symbols can have |
| BlockFinder.StepsMissNothing | crates/rusty-rapidgzip/src/deflate/block_finder.rs:84-101 | A jump passes over no possible start within the offsets whose block type the window shows |
| MissedStart.VerifiedStartMissed | crates/rusty-rapidgzip/src/deflate/block_finder.rs:81-141 | Fourteen bytes with a start at bit 11 that passes the prefilter, parses strictly and passes the trial decode: asked from bit 0 on the finder jumps over it, asked from bit 11 on it finds it |
| BlockFinder.CandidateMeans | crates/rusty-rapidgzip/src/deflate/block_finder.rs:60-79 | The prefilter in terms of the stream's fields |
| BlockFinder.BuildSteps | crates/rusty-rapidgzip/src/deflate/block_finder.rs:84-101 | The table loop computes the step of every window |
| BlockFinder.VerifyCandidate | crates/rusty-rapidgzip/src/deflate/block_finder.rs:175-189 | True exactly when the strict header parses, incomplete codes refused, and the trial decode passes |
| BlockFinder.TrialDecode | crates/rusty-rapidgzip/src/deflate/block_finder.rs:268-302 | The trial decode loop |
| BlockFinder.TrialIsGood | crates/rusty-rapidgzip/src/deflate/block_finder.rs:268-302 | What passes the trial starts like a real block |
| BlockFinder.BuildWorkItems | crates/rusty-rapidgzip/src/pipeline.rs:499-564 | The starts are 0 and exactly the finds past all earlier finds, in order; each item's hint is the next start, the last has none |
| BlockFinder.BoundariesAreRecords | crates/rusty-rapidgzip/src/pipeline.rs:499-564 | A position is a start if and only if it is 0 or a find past all finds before it |
| BlockFinder.BoundariesIncrease | crates/rusty-rapidgzip/src/pipeline.rs:499-564 | Starts strictly increase from 0 and no find lies past the last |
| SafeInflate.InflateInto | crates/rusty-rapidgzip/src/deflate/safe_inflate.rs:617-644 | The baseline decoder returns exactly the stream's output and consumed bytes, and nothing for every other input |
| SafeInflate.Codes | crates/rusty-rapidgzip/src/deflate/safe_inflate.rs:340-498 | Succeeds exactly on well-formed blocks whose distances stay inside the output, to the last bit of the input |
| SafeInflate.SafeSymbol | crates/rusty-rapidgzip/src/deflate/safe_inflate.rs:387-492 | One turn after a best-effort refill, every shortage of bits an error |
| SafeInflate.DecodeBuffered | crates/rusty-rapidgzip/src/deflate/safe_inflate.rs:388-421 | Table or walk: the canonical symbol when the bits at hand cover it |
| SafeInflate.RefillBestEffort | crates/rusty-rapidgzip/src/deflate/safe_inflate.rs:135-156 | Enough bits, or all that are left |
| SafeInflate.SafeHeader | crates/rusty-rapidgzip/src/deflate/safe_inflate.rs:527-592 | The header parser that reuses one length buffer and one table |
| SafeInflate.SafeOneLength | crates/rusty-rapidgzip/src/deflate/safe_inflate.rs:549-577 | One code length or repeat in place |
| SafeInflate.SafeStored | crates/rusty-rapidgzip/src/deflate/safe_inflate.rs:594-612 | A stored block as a slice of the input, after dropping buffered bits |
| SafeInflate.StoredIsSlice | crates/rusty-rapidgzip/src/deflate/safe_inflate.rs:608-610 | Its bytes are a piece of the input |
| SafeInflate.HeadersAgree | crates/rusty-rapidgzip/src/deflate/safe_inflate.rs:527-592 | The two header parsers agree exactly: the table decoder's succeeds if and only if the other does and ten bits are there from its last code-length symbol on, with the same lengths and end |
| SafeInflate.BlocksAgree | crates/rusty-rapidgzip/src/deflate/safe_inflate.rs:624-632 | The same for blocks |
| Engines.EnginesAgree | crates/rusty-rapidgzip/src/deflate/safe_inflate.rs:617-644 | The table-driven decoder decodes a stream if and only if the baseline does and in every compressed block 48 bits are there from its last symbol on; and then to the same bytes and end |
| Engines.TrailerIsRoom | crates/rusty-rapidgzip/src/deflate/safe_inflate.rs:617-644 | Six bytes behind the stream are enough room, so a gzip trailer always is |
| Engines.ShortInput | crates/rusty-rapidgzip/src/deflate/inflate.rs:190-225 | A two-byte stream on which they differ: the table-driven decoder reports the end of input |

## Left out

- Files, memory mapping, `madvise`, environment variables, timing, counters, buffer recycling, the command line, foreign-function interfaces.
- The libdeflate, ISA-L and zlib-rs backends: foreign code; the build without them is the one modelled.
- SIMD: the scalar forms with the same contract are modelled.
- The CRC-32 polynomial: digests are any function with a combine law (`Digest.Lawful`).
- Vector capacity and headroom tests of the byte loops: the output is a growing sequence; the fixed 16-bit buffer's bound is proved.
- The loops' local copies of the reader's fields: the methods work on the reader itself, and the reader of the baseline decoder is the same class.
- Error texts and the finer error kinds: unexpected end, invalid, and integrity errors are kept apart where the retry loop or a caller can tell.
- The gzip header parser is modelled (`GzipHeader`), but the parallel and the single-thread pipelines are proved for any header parser, given as a function.
- The number of body bytes consumed that the pipeline reports, and the input watermark for releasing pages.
- `max_marker_pos` of a chunk, which is only ever kept up to date, and `out_pos_offset` of the side table, which is only ever 0.
- BGZF, `decode_all`, the streaming-parallel variant in streaming.rs: the same parts put together more simply, or without the start-bit check.
- The interleaved decoders used in tests only.
- Mutex, condition variable and channels are taken as such: each step of the machine is one thread's action between two of them, and a blocked thread is one without an enabled step. The consumer of the sink either receives or has gone.
- Blocks.DecodeOneBlock: with the preloaded loop it allows both answers for a block with fewer than 48 bits from its last symbol on, because which one comes depends on how many bytes the register held before the block; the loop's own contract settles it.
- Workers.DecodeMember: allows an error for a stretch with such a block, for the same reason.
- Workers.DecodeStretch: allows the same.
- Workers.DecodeTurn: allows the same.
- Workers.DecodeOneChunk: allows the same; the chain fails on such a chunk either way (`Workers.CrampedIsLate`, `Chain.LateFailure`).
- SpeculativeDecode.DecodeBlockU16: allows the same, depending on the register and on how full the window was.
- SpeculativeDecode.DecodeUntilU16: allows the same.
- SpeculativeDecode.SpeculativePhase: allows the same.
- SpeculativeDecode.FinishBytes: allows the same.
- Workers.StageA: asks that the chain's chunks have no mark at or past 2^32, because beyond that the marker list itself is wrong (`Speculative.PositionsMustFit`); of discarded results it asks nothing.
- MarkerTable.DecodeTokens: asks the same of the chunk it builds.
