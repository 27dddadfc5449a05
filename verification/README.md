# libbzip2, its block recoverer, and a DNS name codec, verified

This project models the compression library libbzip2 1.0.8 (`3rdparty/bzip2`), the program
`bzip2recover` that comes with it, and the domain name codec of `src/helpers/resolver.c`, and proves
what they are for. `dafny verify dfyconfig.toml` checks everything.

The code is modelled in its own form: sorting, heaps, tables and the move-to-front array work in place
on arrays; the compressor, the decompressor and their parts are classes whose methods update their
fields; loops are loops. Each of them is proved against functions on sequences, and the properties of
the library are proved about those functions.

**Sorting the rotations of a block.** `FallbackSort` (prefix doubling with header bits scanned a word at
a time) and `MainSort` (radix sort, three-way quicksort, synthesised buckets, quadrants) both leave the
rows of all rotations in order, periodic blocks with equal rotations included, and leave the block as it
was. `BlockSort` chooses between them as the work factor and the budget tell.

**Undoing the sort.** From the last column alone, by the 32-bit table or by the packed 20-bit table with
its link reversal and binary search, the walk from the origin spells the block, also where the
links form several cycles.

**Entropy coding.** Code lengths come out of the heap and the tree complete and short enough, because a
deep tree would be heavier than any block, and they are best: no other code takes fewer bits for the
counts they were made from, flattened only as often as no best code is short enough. Tables are improved
in four passes; canonical codes are prefix-free; the bits that are written for a block are those of a
format given as a function of what is coded.

**Decoding, whatever the input.** `BlockParser`, `SymbolParser`, `ColumnParser`, `WholeBlockParser` and
`StreamParser` define, for every sequence of bits, what it means to a decoder: too few bits, a value and
the bits left over, or bits no compressor writes. The decoder classes stop wherever `GET_BITS` finds no
input, keep what the C code keeps in its save area, and go on at the next call; each is proved to keep
the meaning of the bits that are still to come. For streams, the meaning is the bytes to be put out and
how the stream ends. So every way of handing over any bytes, and every way of giving room for output,
ends with the same bytes and the same answer; and the bits of a compressor's stream mean its content.

**Damaged streams.** Behind any number of good blocks: another number in the place of a checksum, bits that
are no mark, headers, maps, selectors, code lengths and columns that no compressor writes are corrupt data,
whatever follows; a part of a stream means a part of its content; and more bits never take back what bits
mean. Runs of the decompressor over such bytes put out what was good and answer as they should.

**The compressor as a state machine.** Over every sequence of calls, every byte taken in is in one block
or in the pending run, in order; the end is only told when one whole stream for exactly those bytes has
been put out. Runs are as long as they can be and blocks are closed as soon as they are full, so that without
a flush the blocks are a function of the data, however it was divided among the calls, except for a single last
byte behind a full block.

**Names and recovered blocks.** The decoder of domain names inverts the encoder, directly and through
compression; the two encoders agree exactly when the name does not end with a dot. The recoverer writes a
complete stream for every intact block of a damaged file, since no block is too short to be recorded, and
exactly one for each block of an undamaged one.

A checksum step and the sizes of buffers are parameters. `Crc` is a 32-bit number; how one byte enters
it is a function that is given.

## Model

| member | source | states |
|---|---|---|
| BlockSort.Sort | 3rdparty/bzip2/blocksort.c:1031-1088 | For every block of 1 to 900000 bytes and every work factor the rows are a permutation sorted by whole rotation, the origin is the row of the block itself, and the block is unchanged |
| FallbackSort.Sort | 3rdparty/bzip2/blocksort.c:212-329 | The rows end sorted by whole rotation, and the block bytes, which are overwritten, are restored |
| FallbackSort.RefinePass | 3rdparty/bzip2/blocksort.c:273-306 | One pass turns rows sorted by the first H cyclic bytes, with headers exactly at the classes, into the same for 2H; when nothing is left to do all classes are single rows |
| FallbackSort.Reconstruct | 3rdparty/bzip2/blocksort.c:315-328 | The block is rebuilt from the rows and the saved counts alone |
| HeaderBits.NextSet | 3rdparty/bzip2/blocksort.c:286-290 | The scan by words finds the same header as a scan bit by bit, given a sentinel ahead |
| HeaderBits.NextClear | 3rdparty/bzip2/blocksort.c:278-283 | The scan by words finds the first position that is no header |
| KeySort.QSort3 | 3rdparty/bzip2/blocksort.c:93-180 | A range of rows is rearranged into ascending classes; the explicit stack never overflows |
| KeySort.SimpleSort | 3rdparty/bzip2/blocksort.c:32-60 | The insertion sort for small ranges, with its pass at distance four, sorts and permutes |
| RangeStack.TowerShallow | 3rdparty/bzip2/blocksort.c:172-178 | Pushing the larger range first keeps the stack at 65 entries or fewer, below the asserted 100 |
| MainSort.Sort | 3rdparty/bzip2/blocksort.c:751-1006 | Unless the budget runs out the rows end sorted by whole rotation; in any case the block is unchanged |
| MainSort.Round | 3rdparty/bzip2/blocksort.c:876-1004 | Every round keeps the quadrants in the order of the rotations and finishes one more big bucket, with all small buckets of its row and column |
| MainSort.UpdateQuadrants | 3rdparty/bzip2/blocksort.c:989-1003 | The quadrants of a sorted big bucket, overshoot included, never contradict the order of the rotations |
| Synthesis.Synthesise | 3rdparty/bzip2/blocksort.c:918-946 | The scan from both ends puts the rows of every unfinished small bucket that ends in this big bucket in their sorted places, and the asserted end condition always holds |
| MainCompare.GtU | 3rdparty/bzip2/blocksort.c:347-469 | The comparison that jumps to quadrants gives the order of the two rotations, and reads nothing behind the overshoot |
| MainSimpleSort.Sort | 3rdparty/bzip2/blocksort.c:485-555 | The Shell sort orders a range of rows that share a prefix, unless the budget runs out |
| MainQSort3.Sort | 3rdparty/bzip2/blocksort.c:621-717 | The three-way quicksort by characters orders a range of rows that share a prefix, for every nesting of its three ranges, within its stack |
| MainRadix.Distribute | 3rdparty/bzip2/blocksort.c:802-830 | The rows are a permutation in order of their first two characters |
| MainRadix.RunningOrder | 3rdparty/bzip2/blocksort.c:837-860 | The big buckets are processed in order of their sizes |
| InverseBwt.WalkRestoresBlock | 3rdparty/bzip2/decompress.c:565-581 | For every block and every sorted order of its rotations, the walk along the links of the last column from the row of the block spells the block |
| InverseBwt.LastColumnUnique | 3rdparty/bzip2/compress.c:163-167 | The last column does not depend on which of several sorted orders was found |
| InverseBwt.OrigRowUnique | 3rdparty/bzip2/blocksort.c:1059-1061 | All sorted orders put the block into the same row exactly if no other rotation equals it |
| BwtTables.BuildFast | 3rdparty/bzip2/decompress.c:565-570 | The 32-bit table holds in every row the character and the link of that row |
| BwtTables.ComputeRanks | 3rdparty/bzip2/decompress.c:535-540 | The packed table holds the rank of every row |
| BwtTables.ReverseCycle | 3rdparty/bzip2/decompress.c:542-551 | The reversal ends back at the origin, and turns ranks into links along the cycle of the origin |
| BwtTables.IndexIntoF | 3rdparty/bzip2/bzlib.c:687-698 | The binary search finds the bucket that holds the row |
| BwtTables.SearchFindsCharacter | 3rdparty/bzip2/bzlib_private.h:475-479 | The bucket of a row is the character of the row it links to, so that the small decoder needs no characters |
| HuffmanHeap.UpHeap | 3rdparty/bzip2/huffman.c:33-42 | A rising node makes the heap ordered again, with the same nodes in it |
| HuffmanHeap.DownHeap | 3rdparty/bzip2/huffman.c:44-59 | A sinking node makes the heap ordered again, with the same nodes in it |
| HuffmanLengths.MakeCodeLengths | 3rdparty/bzip2/huffman.c:63-148 | All lengths are from 1 to the maximum and use up the code space exactly; no code takes fewer bits for the counts, halved as often as the loop rescales them, and it rescales exactly as often as no best code for the counts so far is within the maximum |
| HuffmanLengths.BestIfPossible | 3rdparty/bzip2/huffman.c:114-145 | If any best code for the counts is within the maximum, the code made is best for the counts as they are, and a symbol that occurs more often has no longer a code word |
| HuffmanOptimality.HuffmanIsBest | 3rdparty/bzip2/huffman.c:100-112 | Huffman's theorem: when the two lightest roots are joined again and again, no lengths within Kraft's inequality cost less than the depths of the leaves |
| HuffmanOptimality.HuffmanIsLow | 3rdparty/bzip2/huffman.c:25-31 | And since weights carry heights and the lower of equally heavy roots is taken first, no best code has a smaller greatest length |
| HuffmanOptimality.HeavierIsShorter | 3rdparty/bzip2/huffman.c:114-121 | In any best code a heavier symbol has no longer a code word |
| HuffmanTree.DeepIsHeavy | 3rdparty/bzip2/huffman.c:100-121 | A node of depth d needs a total weight of at least the Fibonacci number d + 2, so that depths fit into the low byte of a weight |
| HuffmanLengths.SeventeenSuffices | 3rdparty/bzip2/compress.c:449-451 | The greatest length 17 that the compressor asks for is large enough for every alphabet |
| HuffmanCodes.AssignCodes | 3rdparty/bzip2/huffman.c:152-166 | Codes of one length are consecutive in symbol order, and follow those of shorter lengths |
| HuffmanCodes.PrefixFree | 3rdparty/bzip2/huffman.c:152-166 | For any lengths from 1 to 20 within Kraft's inequality, no code word is the beginning of another one |
| HuffmanCodes.CreateDecodeTables | 3rdparty/bzip2/huffman.c:170-200 | For any lengths from 1 to 20 the tables hold the limits, offsets and symbols of the canonical code, whatever perm held before |
| HuffmanCodes.OnlyAssigned | 3rdparty/bzip2/decompress.c:98-101 | Whatever bits come, only entries of perm that belong to a symbol are read |
| MoveToFront.RunDecodes | 3rdparty/bzip2/decompress.c:387-404 | The length of a run is read back from its code |
| MoveToFront.RunEncodes | 3rdparty/bzip2/compress.c:174-188 | And no two codes stand for one length |
| MoveToFront.RanksUnique | 3rdparty/bzip2/compress.c:163-207 | A column has only one sequence of ranks |
| MtfEncoder.GenerateValues | 3rdparty/bzip2/compress.c:120-231 | The symbols are the run-coded ranks of the numbered last column, mtfFreq counts them, and although they overwrite the row numbers in the same storage, none that is still to be read |
| MtfEncoder.CodeRow | 3rdparty/bzip2/compress.c:163-210 | One row adds its symbol, or a zero to the pending run; only row numbers already read are overwritten |
| SlidingMtf.MtfArray.Take | 3rdparty/bzip2/decompress.c:429-481 | Short path, general path and the packing when the first row reaches the bottom are all exactly move-to-front on the list the sixteen rows hold |
| SlidingMtf.MtfArray.Init | 3rdparty/bzip2/decompress.c:364-376 | The sixteen rows hold the characters in order |
| TableChoice.ChooseTables | 3rdparty/bzip2/compress.c:266-458 | The number of tables is that for the number of symbols; four passes lead from the first guess to the tables; in each every group takes a table that is cheapest for it, and every table becomes the best code within 17 bits for exactly the symbols of its groups; the selectors are those of the last pass |
| TableChoice.InitialTables | 3rdparty/bzip2/compress.c:279-317 | The first guess: consecutive ranges of symbols that cover the alphabet, one range cheap in each table, with the counts that end them |
| TableChoice.AssignGroups | 3rdparty/bzip2/compress.c:325-433 | Every group of fifty has a selector of a table that is cheapest for it, and the counts of each table are those of the symbols in its groups |
| TableChoice.CountGroup | 3rdparty/bzip2/compress.c:408-433 | Each count grows by the number of times its symbol occurs in the group |
| BlockFormat.CodedSize | 3rdparty/bzip2/bzlib.c:176-178 | The worst case of what is written for a block |
| BlockEncoder.SendMap | 3rdparty/bzip2/compress.c:494-511 | The bits written are those of the map of used characters |
| BlockEncoder.SendSelectors | 3rdparty/bzip2/compress.c:521-524 | The bits written are those of the ranks of the selectors |
| BlockEncoder.SendTables | 3rdparty/bzip2/compress.c:531-539 | The bits written are those of the code lengths, in steps |
| BlockEncoder.SendData | 3rdparty/bzip2/compress.c:544-594 | The bits written are the code words of all symbols, by groups |
| BlockCompressor.CompressBlock | 3rdparty/bzip2/compress.c:616-655 | The bits written are a block that encodes the bytes, within the room behind them; the bytes are unchanged |
| BlockCompressor.Symbolise | 3rdparty/bzip2/compress.c:120-231 | The symbols are those of the last column of the sorted rows |
| BitIO.BitWriter.W | 3rdparty/bzip2/compress.c:58-78 | The n bits of a value are added to the bits written |
| BitIO.BitWriter.Finish | 3rdparty/bzip2/compress.c:46-53 | The bytes begin with all bits written, with less than a byte of padding |
| BitIO.BitReader.GetBits | 3rdparty/bzip2/decompress.c:43-65 | The next n bits, wherever the input at hand ends; or, when there are not so many, all of them stay for the next call |
| BlockDecoder.MapReader.Resume | 3rdparty/bzip2/decompress.c:266-281 | From wherever it stopped, it reads the map that the reference finds in the bits, or waits with that meaning kept |
| BlockDecoder.RankReader.Resume | 3rdparty/bzip2/decompress.c:286-320 | The same for the selectors, with those beyond the maximum read and dropped, and moved to front in place |
| BlockDecoder.LengthReader.Resume | 3rdparty/bzip2/decompress.c:322-335 | The same for the code lengths |
| BlockDecoder.MakeTable | 3rdparty/bzip2/decompress.c:337-353 | The decoding tables are those of the lengths |
| BlockDecoder.MakeMaps | 3rdparty/bzip2/decompress.c:27-35 | The table takes the numbers of used characters back to them |
| SymbolDecoder.SymbolReader.Next | 3rdparty/bzip2/decompress.c:74-102 | From wherever in a code word it stopped, it reads the symbol the reference finds, or waits with that meaning kept |
| SymbolDecoder.TableReads | 3rdparty/bzip2/decompress.c:92-101 | For any lengths and any bits, the tables lead to the symbol the lengths determine, whatever their other entries hold |
| ColumnDecoder.ColumnReader.Resume | 3rdparty/bzip2/decompress.c:378-492 | The same for the whole symbol loop: runs, move-to-front, the limits, and the counts of the characters |
| ColumnDecoder.Column.PutRun | 3rdparty/bzip2/decompress.c:404-421 | A run is put into the column and counted, unless it does not fit |
| BlockDecompressor.BlockReader.Resume | 3rdparty/bzip2/decompress.c:226-498 | From wherever it stopped, it reads the block the reference finds in the bits, or reports the errors the reference finds, or waits with that meaning kept |
| BlockParser.MapParsed | 3rdparty/bzip2/decompress.c:266-281 | The bits written for a map mean that map |
| BlockParser.SelectorsParsed | 3rdparty/bzip2/decompress.c:286-320 | The bits written for selectors mean those selectors; of up to 32767 only the first 18002 are kept, and the others are read and dropped |
| BlockParser.TablesParsed | 3rdparty/bzip2/decompress.c:322-335 | The bits written for code lengths mean those lengths |
| SymbolParser.WordParsed | 3rdparty/bzip2/decompress.c:74-102 | The code word written for a symbol means that symbol, for any usable lengths, and takes exactly its bits |
| SymbolParser.WordIff | 3rdparty/bzip2/decompress.c:74-102 | For any usable lengths, exactly which bits are a symbol: those that begin with its code word; they are wrong exactly if there are more than twenty and no code word begins them |
| ColumnParser.ColumnParsed | 3rdparty/bzip2/decompress.c:378-492 | The symbols written for a column mean that column exactly if it fits into the block and there are selectors for all of them, and are wrong otherwise; the guard on run weights never rejects a run that fits into a block |
| ColumnParser.RunDigits | 3rdparty/bzip2/decompress.c:387-404 | Anywhere in a column up to 21 digits of a run are its number, and with a 22nd the bits are wrong, whatever follows |
| WholeBlockParser.BlockParsed | 3rdparty/bzip2/decompress.c:226-498 | The bits written for a block mean the last column of its sorted rotations, its checksum and its origin |
| WholeBlockParser.BlockAccepted | 3rdparty/bzip2/decompress.c:226-498 | Exactly when the bits of a coded column, with any header and selectors and in a stream of any block size, are a block: it fits, its symbols have selectors, its origin is one of its rows |
| StreamParser.StreamParsed | 3rdparty/bzip2/decompress.c:197-612 | The bits of a stream, whatever follows them, mean its content and a regular end |
| Prefixes.StreamGrows | 3rdparty/bzip2/decompress.c:106-652 | More bits never take back what bits mean: what was to be put out is still put out first, and an end or an error stays as it is |
| StreamDamage.AlteredBlock | 3rdparty/bzip2/bzlib.c:830-831 | A stream in which the checksum of block j is overwritten with any other number is corrupt, behind exactly the content of the blocks up to j |
| StreamDamage.AlteredTotal | 3rdparty/bzip2/bzlib.c:847-848 | A stream in which the combined checksum is overwritten with any other number is corrupt, behind all of its content |
| StreamDamage.WrongBlockChecksum | 3rdparty/bzip2/bzlib.c:815-831 | The same for a block with a wrong checksum behind any good blocks, whatever follows it |
| StreamDamage.TrailerDecides | 3rdparty/bzip2/bzlib.c:842-849 | A trailer behind any good blocks, whatever follows it, ends the stream regularly exactly if its number is the combined checksum of the blocks |
| StreamDamage.NoMark | 3rdparty/bzip2/decompress.c:222-235 | Bits behind good blocks that begin with neither mark are corrupt |
| StreamDamage.Truncated | 3rdparty/bzip2/decompress.c:43-65 | A stream that is cut off anywhere means the content of the blocks that are whole, and waits for more |
| StreamDamage.NotAStream | 3rdparty/bzip2/decompress.c:197-210 | Bytes are no stream exactly if one of the first four is wrong, whatever else is there, and then nothing is put out |
| RefusedBlocks.BadOrigin | 3rdparty/bzip2/decompress.c:255-264 | A header whose origin is beyond the largest block is refused, behind any good blocks and before any bits |
| RefusedBlocks.NoCharacters | 3rdparty/bzip2/decompress.c:283 | So is a map without a character |
| RefusedBlocks.BadTableCount | 3rdparty/bzip2/decompress.c:287-288 | So is a number of tables other than 2 to 6 |
| RefusedBlocks.NoSelectors | 3rdparty/bzip2/decompress.c:289-290 | So are no selectors |
| RefusedBlocks.BadSelector | 3rdparty/bzip2/decompress.c:291-298 | So is a selector of a table that there is not, behind any good ones |
| RefusedBlocks.BadLength | 3rdparty/bzip2/decompress.c:322-327 | So is a table that begins with a length outside 1 to 20, behind any good ones |
| RefusedBlocks.StepRefused | 3rdparty/bzip2/decompress.c:326-333 | So is a step out of 1 to 20; the others are taken |
| RefusedBlocks.BadColumn | 3rdparty/bzip2/decompress.c:378-498 | So is a column that is too long for its stream, has too few selectors, or has an origin that is none of its rows |
| BlockDecompressor.CompressToBytes | 3rdparty/bzip2/compress.c:602-667 | One half of the round trip of a block: bytes that encode the block |
| BlockDecompressor.DecompressBytes | 3rdparty/bzip2/decompress.c:222-584 | The other half: such bytes, arriving in any number of pieces at which the reading stops and goes on, give the block back |
| UnRle.SmallOutput.UnRle | 3rdparty/bzip2/bzlib.c:706-804 | A call puts out as many of the bytes left as fit, with their checksum; it reports corrupt data exactly if the block stops in the middle of a run and there is room to spare |
| UnRle.FastOutput.UnRle | 3rdparty/bzip2/bzlib.c:536-682 | The same for the optimised form, which reads ahead; it reports corrupt data exactly if the block stops in the middle of a run and there is room for all of it, and then the call's bytes are lost |
| UnRle.RunBoth | 3rdparty/bzip2/bzlib.c:536-804 | For every sequence of output sizes both forms put out and report the same, exactly if the last run ends with the block or there is less room than bytes |
| Decompressor.BothForms | 3rdparty/bzip2/decompress.c:530-582 | The same from any last column and any origin on, with both tables built from it |
| Rle.ExpandPacked | 3rdparty/bzip2/bzlib.c:761-801 | Undoing the initial run-length code gives back the runs of a compressor, whatever stands behind the block |
| Rle.ExpandCodable | 3rdparty/bzip2/bzlib.c:761-801 | The same for all runs the code can express, up to 259 bytes long |
| Rle.EndsWellIff | 3rdparty/bzip2/bzlib.c:728-731 | A block stops in the middle of a run exactly if it is the code of no runs |
| Rle.RunsUnique | 3rdparty/bzip2/bzlib.c:260-284 | Runs that are as long as they can be are determined by the bytes they stand for |
| Checksums.FoldJoin | 3rdparty/bzip2/bzlib_private.h:167-172 | The checksum of bytes put out in parts is that of all of them |
| Checksums.CombineBits | 3rdparty/bzip2/bzlib.c:833-836 | Bit by bit: the combined checksum is rotated to the left by one and the block's is added to it without carry |
| Checksums.ComplementBits | 3rdparty/bzip2/bzlib_private.h:162-165 | Finalising inverts every bit |
| RunInput.RunCollector.AddCharToBlock | 3rdparty/bzip2/bzlib.c:260-284 | The bytes fed are those of the block's runs and the pending run, in order, with one more; runs stay as long as they can be, also across blocks; the block grows by at most five |
| RunInput.RunCollector.FlushRL | 3rdparty/bzip2/bzlib.c:252-257 | The pending run becomes part of the block, and nothing is lost |
| Compressor.EState.CopyInput | 3rdparty/bzip2/bzlib.c:289-330 | A first part of the input is taken in, until the block is full or the input is used up; the block stays ten bytes below its size |
| Compressor.EState.CompressBlock | 3rdparty/bzip2/compress.c:602-667 | The stream so far grows by the header before the first block, one block for exactly the bytes collected, and the trailer after the last |
| Compressor.EState.HandleCompress | 3rdparty/bzip2/bzlib.c:361-402 | Whatever the sizes, input is taken in order and output put out in order; every call with room that finishes, or has input, gets further |
| Compressor.EState.Compress | 3rdparty/bzip2/bzlib.c:407-464 | For every action in every mode: exactly which answer is given, progress and refusals included, the new mode, what is taken in and put out; the end is told exactly when the complete stream of everything taken in has been put out |
| Compressor.RunCalls | 3rdparty/bzip2/bzlib.c:359-464 | Over any sequence of calls, legal or not: the answers are those of the modes, at most one tells the end, everything after it is refused, and if it comes the output is one complete stream for exactly the input taken, with maximal runs from end to end if nothing was flushed |
| Compressor.FinishAll | 3rdparty/bzip2/bzlib.c:452-461 | With any positive output sizes, repeated finishing calls come to the end |
| Compressor.RunAll | 3rdparty/bzip2/bzlib.c:423-426 | With any positive output sizes, repeated calls to go on take all their input in |
| BlockCuts.BlocksExactly | 3rdparty/bzip2/bzlib.c:289-402 | Without a flush the blocks of a stream are a function of its content, each closed as soon as it is full, and of whether the last byte was taken in by a call that could not be the last: only then a single byte behind a full block is a block of its own |
| BlockCuts.SameBlocks | 3rdparty/bzip2/bzlib.c:381-392 | So two streams of the same data consist of the same blocks exactly if their last bytes were taken in alike or the data do not end with such a byte, however input and output were divided among the calls |
| BlockCuts.SomeOverhang | 3rdparty/bzip2/bzlib.c:381-392 | Such data exist for every block size |
| BlockCuts.TwoWays | 3rdparty/bzip2/bzlib.c:381-392 | For any data both kinds of stream are written: by calls that finish, and by calls that go on before one that finishes |
| BlockCuts.SameSymbols | 3rdparty/bzip2/compress.c:120-231 | Equal blocks have the same map and the same symbols, whichever sorter was used |
| Decompressor.DState.Decompress | 3rdparty/bzip2/bzlib.c:808-858 | For any input: what is put out and what is still to come make up what was to come before, the answers for errors and for the end are those of the reference, and OK means that room or input is used up |
| Decompressor.DState.ToNextBlock | 3rdparty/bzip2/decompress.c:106-652 | From any label, up to the next block, the end, an error or the end of the input |
| Decompressor.DState.ToComeKept | 3rdparty/bzip2/decompress.c:619-646 | What is to come depends only on the saved state and the bits still to be read, not on which of them are in the buffer |
| RoundTrip.Decode | 3rdparty/bzip2/bzlib.c:808-858 | For any bytes, any pieces and any room at each call, the output and the last answer are what the bytes as a whole mean; the end is told by the call that puts out the last byte |
| RoundTrip.ResultUnique | 3rdparty/bzip2/bzlib.c:808-858 | Two settled runs over the same bytes, in either form, have the same output and the same last answer, unless the fast form meets a block that stops in the middle of a run |
| RoundTrip.AgainstOneCall | 3rdparty/bzip2/decompress.c:43-65 | Any schedule of calls gives what one call with all the input gives |
| RoundTrip.FastLosesBytes | 3rdparty/bzip2/bzlib.c:632-634 | The exception is exact: for every stream with such a block, one call and two calls with the fast form put out different bytes |
| RoundTrip.IllEndedStream | 3rdparty/bzip2/bzlib.c:632-634 | Such streams exist |
| RoundTrip.DecodeAll | 3rdparty/bzip2/bzlib.c:808-858 | Calling on with any positive room settles every run |
| RoundTrip.DecodeStream | 3rdparty/bzip2/bzlib.c:808-858 | For a complete stream and any output sizes, the end is told exactly when there has been a call and room for all of the content |
| DamagedRuns.LastAnswer | 3rdparty/bzip2/bzlib.c:808-858 | Once a run is settled, its last answer is that of the bytes as a whole, and so is its output |
| DamagedRuns.DecodeAltered | 3rdparty/bzip2/bzlib.c:830-831 | Over a stream with an overwritten block checksum, in any pieces and with any room, the end is never told; every settled run has put out exactly the blocks up to that one and answers DATA_ERROR |
| DamagedRuns.DecodeTruncated | 3rdparty/bzip2/decompress.c:43-65 | Over a stream that is cut off the answer is always OK, and with room to spare exactly the whole blocks have been put out |
| RoundTrip.ThereAndBack | 3rdparty/bzip2/bzlib.c:407-858 | Any data, compressed with any block size, work factor and buffer sizes, and decompressed by either form with any pieces and any room, comes back |
| Recover.BitSource.GetBit | 3rdparty/bzip2/bzip2recover.c:199-214 | The bits of the file, the highest of each byte first, and then the end |
| Recover.BitSink.Close | 3rdparty/bzip2/bzip2recover.c:218-238 | The file begins with all bits written, padded with zeros to a byte |
| Recover.RegisterStep | 3rdparty/bzip2/bzip2recover.c:383-384 | The two words always hold the last 48 bits |
| Recover.Scan | 3rdparty/bzip2/bzip2recover.c:361-411 | The intervals recorded are those between neighbouring marks that pass the length test, for fewer than 50000 marks; at the 50000th mark, and only there, the counter leaves the arrays |
| Recover.RecordedIffSpaced | 3rdparty/bzip2/bzip2recover.c:391-404 | What is recorded is in order and inside the file exactly if no two neighbouring marks are closer than 49 bits |
| Recover.CloseMarksRecorded | 3rdparty/bzip2/bzip2recover.c:396-397 | Between closer marks an interval is recorded that ends before it begins |
| Recover.ScanTwoMarks | 3rdparty/bzip2/bzip2recover.c:391-404 | The first pass over two marks side by side records such an interval |
| Recover.Split | 3rdparty/bzip2/bzip2recover.c:439-506 | Every interval becomes a file: stream header, block mark, exactly the interval's bits, end mark, and the interval's first 32 bits as checksum |
| Recover.RecoveredIsStream | 3rdparty/bzip2/bzip2recover.c:439-506 | If the interval holds a block of a stream, its file is a complete stream with that block's content and the right combined checksum |
| Recover.RecoverAll | 3rdparty/bzip2/bzip2recover.c:301-506 | The whole program: for fewer than 50000 marks that are well apart, every long enough interval gives its file, in order |
| Recover.RecordedWhen | 3rdparty/bzip2/bzip2recover.c:396-404 | An interval is recorded exactly if its marks are 179 bits or more apart, or fewer than 49 |
| SmallestBlock.BlockAtLeast | 3rdparty/bzip2/bzip2recover.c:396-397 | No block takes fewer than 179 bits, so that none is dropped |
| RecoveredStream.RecoverIntact | 3rdparty/bzip2/bzip2recover.c:301-506 | In any file with fewer than 50000 marks that are well apart, every intact block between two marks gets a file, which is a complete stream of its content |
| RecoveredStream.RecoverStream | 3rdparty/bzip2/bzip2recover.c:301-506 | For a whole stream with no marks but its own, there is exactly one file for each block, in order, and it is a complete stream of that block's content |
| DnsNames.DnComp | src/helpers/resolver.c:235-269 | The name's labels with their lengths and a zero byte, if all labels are at most 63 bytes and there is room; nothing else is written |
| DnsNames.EncodeBackwards | src/helpers/resolver.c:336-355 | What the loop from the back writes, in one function of the name; nothing else is written |
| DnsNames.EncodersAgree | src/helpers/resolver.c:336-355 | Both encoders write the same bytes exactly if the name is not empty and does not end with a dot |
| DnsNames.BackOfLabels | src/helpers/resolver.c:336-355 | For names made of labels the loop from the back writes the labels with their lengths, as section 3.1 of RFC 1035 lays them out |
| DnsNames.DnExpand | src/helpers/resolver.c:191-233 | For any packet: the name found by following labels and compression pointers, if it can be read within the iteration counter and fits; its span in the packet |
| DnsNames.ExpandsDirectly | src/helpers/resolver.c:191-233 | What dn_comp wrote is read back |
| DnsNames.ExpandsThroughPointer | src/helpers/resolver.c:484-489 | And through the compression of section 4.1.4 of RFC 1035, alone or behind further labels |
| DnsNames.CounterSuffices | src/helpers/resolver.c:199-200 | The iteration counter allows enough steps for any name behind one compression pointer |
| DnsNames.ReadWithinCounter | src/helpers/resolver.c:198-201 | A name is read exactly if its zero byte is reached in fewer steps than half the length of the packet |
| DnsNames.LoopsAreRefused | src/helpers/resolver.c:199-200 | A position on any cycle of labels and compression pointers, of any length, is refused for every value of the counter |
| DnsNames.ReadWhen | src/helpers/resolver.c:191-233 | A name is read in n steps exactly if fewer than n steps lead to its zero byte |
| DnsNames.ReservedIsPointer | src/helpers/resolver.c:203-214 | Every length byte from 64 on is followed as a pointer with the low fourteen bits |

## Findings

- The stream can depend on which sorter was used. A comment says that the compressed stream is the same
  for both (3rdparty/bzip2/blocksort.c:1059-1061). The last column is (`InverseBwt.LastColumnUnique`),
  but the row of the origin is written as well, and it is determined exactly for blocks that equal none
  of their other rotations (`InverseBwt.OrigRowUnique`). Every such stream decodes to the same bytes.
- The fast decoder loses output at a block that stops in the middle of a run
  (3rdparty/bzip2/bzlib.c:632-634): it returns before it saves next_out, so that all bytes of the block
  put out in that call are missing from the count, while the small decoder counts them. So the output up
  to the error depends on the sizes of the calls. It does so exactly for streams with such a block
  (`RoundTrip.FastLosesBytes`, `RoundTrip.ResultUnique`), no compressor writes one
  (`Rle.ExpandPacked`), and they exist (`RoundTrip.IllEndedStream`).
- The recoverer records an interval that ends before it begins when two marks are closer than 49 bits:
  the length test subtracts unsigned numbers (3rdparty/bzip2/bzip2recover.c:396-397,
  `Recover.RecordedIffSpaced`, `Recover.ScanTwoMarks`).
- The recoverer tests for too many blocks before it increases the counter
  (3rdparty/bzip2/bzip2recover.c:405-409), so that the 50000th mark is written behind the arrays, and the
  test never succeeds before (`Recover.Scan`).
- The two encoders of names differ for names that end with a dot, and for the empty name
  (`DnsNames.EncodersAgree`): the loop from the back writes one more zero byte.
- Length bytes from 64 to 191 are followed as compression pointers (src/helpers/resolver.c:203-214,
  `DnsNames.ReservedIsPointer`), although section 4.1.4 of RFC 1035 reserves them.
- The blocks of a stream can depend on how the data were handed over. When the last byte finds the block full
  behind it, a call to go on closes the block without it, and it becomes a block of its own; a call to finish
  puts it into the full block (3rdparty/bzip2/bzlib.c:381-392). This is the only way, without a flush
  (`BlockCuts.SameBlocks`), and it happens (`BlockCuts.SomeOverhang`, `BlockCuts.TwoWays`).

## Left out

- Randomised blocks: no version of the compressor since 0.9.5 writes them. The decoder's answer for one is
  an answer of its own, `Randomised`, and its output is not modelled.
- The checksum table and the table of random numbers: the checksum step is a parameter, and the second is
  only used for randomised blocks.
- Sharing of storage, apart from the two places where it matters: eclass8 in the fallback sorter and mtfv
  over ptr are overwritten with arbitrary values where the C code overwrites them. The other overlays
  (block, quadrant and zbits in arr2, fmap in arr1) are separate arrays, and the output buffer has the
  length that is left behind the block.
- MainSort.Sort: equal rotations of a periodic block may come in any order, as in the source.
- The unrolled loops for groups of fifty symbols are loops of fifty; gotos are flags or early returns;
  two-dimensional tables are sequences of rows, and mtfv is a sequence while tables are chosen.
- Shifts and masks are arithmetic on numbers with the width of the C type; setting bits that are clear is
  addition. Integers that the source never lets overflow are unbounded.
- HuffmanLengths.MakeCodeLengths: asks for a total frequency below 2^23 and a greatest length that the alphabet
  admits, both of which hold for every caller (HuffmanLengths.SeventeenSuffices).
- The sorter runs before the block's header is written; the order of the two does not show.
- The finalised checksum of a block is a local value; the source writes it back into the same field.
- The tables of the decoder are allocated at their greatest size, and the characters of a column are kept
  in one array that the small decoder copies into its packed table.
- Calls of the decompressor after an error: the source goes on from where it was; here they are not made.
- Recover.RecoverAll: says nothing about the files when two marks are closer than 49 bits, although it
  terminates then. The lists rbStart and rbEnd are one sequence of pairs, and the printing of
  incomplete blocks at the end of the file is left out.
- Counting of total bytes in two 32-bit words, verbosity, allocation and its failures, and the functions
  that wrap the library for files (3rdparty/bzip2/bzlib.c:902-1572).
- The layout of answers in res_query_dnsapi, sockets and the registry (src/helpers/resolver.c:56-186, 421-523),
  and the rest of the repository, which wraps operating system calls.
