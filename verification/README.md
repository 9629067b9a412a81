# The DEFLATE engine of zlib, in Dafny

This project models the bundled zlib 1.2.13 (`external/zlib`): the compressor,
the decompressor and the two checksums, and proves what the library promises
of them. The formats are those of RFC 1951 (DEFLATE), RFC 1950 (Adler-32) and
RFC 1952 (CRC-32).

- **Encoder** (`trees.c`): the heap, Huffman's algorithm, the repair of codes
  that are too long, canonical codes, the run-length coded header, the bit
  buffer, the choice of an encoding, and the symbol buffer that shares its
  memory with the pending output. `Bits`, `BitWriter`, `Heap`, `Huffman*`,
  `TreeMerge`, `GenBitlen`, `RepairCost`, `Trees`, `TreeHeader`, `StaticTrees`,
  `BlockCost`, `CompressBlock`, `DynamicTrees`, `UniformCode`, `HeaderSize`,
  `SymbolSizes`, `SmallBuffer`, `Overlay`, `FlushBlock`.
- **Matcher** (`deflate.c`): the sliding window, the hash chains, the search
  for a match, the four compression functions, and why each symbol was chosen.
  `Hash`, `HashChain`, `Replay`, `Choices`, `Deflate`.
- **Decoder** (`inftrees.c`, `inflate.c`, `inffast.c`): the two-level tables,
  the states TYPE to DONE, the fast loop, the circular window and whole calls.
  `InflateTable`, `InflateMachine`, `InflateStream`, `InflateBlocks`, `Window`,
  `InflateAhead`, `Inflate`, `InflateHeader`, `InflateCall`, `InflateEntry`,
  `SyncSearch`; and `KnownStreams`, the format in numbers.
- **Checksums** (`crc32.c`, `adler32.c`): `Polynomial`, `Crc32`, `Adler32`.

Everything comes together in `RoundTrip.RoundTrip`: data handed to `deflate()`
in any pieces with any room for output, at any level from 1 to 9, with any
strategy, window size and memLevel, written out as blocks, and the output
handed to `inflate()` in any pieces, is the data again.

The round trip does not say that matches are found at all. `Deflate` therefore
keeps a record of every place of the data, of what was looked for there and what
was found, and `Choices` says how the symbols follow from it. Nor does it say
that the format is the one of RFC 1951: `KnownStreams` states the tables in
closed form and the bytes of small streams.

How the parts fit: the encoder appends the bits that `BlockFormat` defines.
`InflateMachine` says what `inflate()` does to a raw stream, in the smallest
steps, over code lengths and the whole output; `InflateBlocks` proves that it
reads those bits back. `Inflate`, `InflateHeader` and `InflateCall` are the
same states on the real data (tables, registers, window, output buffer), each
step proved to be steps of that machine.

Three things the proofs brought out:

- `inftrees.h:38-48` says that the sizes 852 and 592 of the decoding tables
  were found by an exhaustive search. `InflateTable` proves them: the space
  never runs out for 286 lengths with 9 index bits, or 30 with 6, so the
  run-time check never fails in `inflate()`.
- The comment on the symbol buffer in `deflate.c:323-360` argues from the size
  of a whole dynamic block. That does not bound the size of its first symbols;
  `Overlay` and `SmallBuffer` do, for every size of buffer, from what the code
  lengths of Huffman codes can be.
- `inffast.c:29` asks for fewer than 8 bits in the accumulator on entry. That
  is not always so: a call that ends inside a code of 9 bits or more can leave
  8 held, and the next one may start with the fast loop
  (`InflateEntry.HeldByte`, `InflateEntry.EnterWithByte`). `InflateOnce` proves
  exactly when: the call starts in LEN with 8 bits or more held, 6 bytes of
  input and room for 258. It does no harm, as `Inflate` proves the fast loop
  for any call.

## Model

| member | source | states |
|---|---|---|
| RoundTrip.RoundTrip | external/zlib/deflate.c:815-1127 | compressing data that comes in any pieces, with any room in every call and any memLevel, and decompressing the output in any pieces, with the real tables and window, ends in DONE and gives exactly the data |
| RoundTrip.Compressed | external/zlib/deflate.c:815-1127 | the output, fed to the decoder in any pieces with room for the data, ends in DONE and gives the data that was handed over in any pieces |
| RoundTrip.CompressAll | external/zlib/deflate.c:815-1127 | calls without and then with Z_FINISH come to an end, also when output from earlier calls takes all space in some of them; the flushed blocks replay all input given in all calls, and only the last is marked |
| RoundTrip.WriteBlocks | external/zlib/trees.c:912-1009 | for a sequence of blocks, each tallied, flushed and passed on, the output is the bits of one encoding of each, in order, the last one marked, and zeros up to a whole byte |
| RoundTrip.DeflateInflate | external/zlib/inflate.c:625-1302 | whichever encodings the blocks got, the decoder finds the end of their bits and has put out the original data, for every split of input and room |
| KnownStreams.OrderOutwards | external/zlib/trees.c:71-72 | the order of the item lengths: 16, 17, 18, 0, then 8 and up in turn with 7 and down |
| KnownStreams.LengthsInFours | external/zlib/inftrees.c:60-65 | bases and extra bits of the 29 length codes in closed form: four codes for each number of extra bits |
| KnownStreams.DistancesInPairs | external/zlib/inftrees.c:66-73 | bases and extra bits of the 30 distance codes in closed form: two codes for each number of extra bits |
| KnownStreams.FixedCodesAre | external/zlib/trees.c:287-303 | the four ranges of fixed codes as numbers |
| KnownStreams.TheBlockBits | external/zlib/trees.c:834-857 | 44 given bytes are the bits of a dynamic block, with its three counts, 18 item lengths, items, one literal and the end |
| KnownStreams.DynamicStream | external/zlib/inflate.c:919-1060 | these bytes, in any pieces, are read to DONE and give the literal |
| KnownStreams.StoredStream | external/zlib/inflate.c:901-918 | eight given bytes with a stored block, in any pieces, are read to DONE and give its data |
| InflateCall.InflateAll | external/zlib/inflate.c:625-1302 | any number of calls, each on a piece of the input with some room, end exactly where one call with all of both would: same output, verdict, unused input and room |
| InflateCall.InflateOnce | external/zlib/inflate.c:625-1302 | one call on registers, tables and window kept from the last one goes exactly as far as the machine does, and keeps them good for the next one; it enters the fast loop with 8 bits or more if and only if it starts in LEN with that many, 6 bytes of input and room for 258 |
| InflateEntry.EndsMidCode | external/zlib/inflate.c:1064-1080 | a call whose input ends n bits into the code of its next symbol stops in LEN with exactly these n bits held |
| InflateEntry.HeldByte | external/zlib/inffast.c:29 | an input after which a first call, with room for its 5 bytes or more, stops in LEN with 8 bits held |
| InflateEntry.EnterWithByte | external/zlib/inffast.c:29 | two calls on the real tables and registers, the second of which enters the fast loop with 8 bits held |
| InflateCall.NewMemory | external/zlib/inflate.c:281-322 | the tables of the fixed codes decode the 288 literal and length codes and the 32 five-bit distance codes |
| InflateHeader.DoCodeLens | external/zlib/inflate.c:977-1060 | the lengths read, with their repeats, and the tables built from them are those of the block; every error the source reports leads to BAD |
| InflateHeader.MakeTables | external/zlib/inflate.c:1035-1058 | the two tables built one behind the other decode both codes, and are refused exactly for the length sets that are no good; the space check cannot fail |
| InflateHeader.DoLenLens | external/zlib/inflate.c:955-976 | the item lengths come in their order of transmission, and the one-level table built from them decodes the items |
| InflateHeader.DoStored | external/zlib/inflate.c:901-915 | the two lengths of a stored block are read from a byte boundary and must be complements |
| InflateMachine.SplitAnywhere | external/zlib/inflate.c:625-1302 | the machine's output and verdict do not depend on how input and room are split over calls |
| InflateBlocks.PiecesRoundTrip | external/zlib/inflate.c:862-1302 | a stream of encoded blocks, in any pieces, is read to its end and gives the data of the blocks |
| InflateBlocks.ReadBlock | external/zlib/inflate.c:862-1220 | from the type bits on, the bits of any stored, fixed or dynamic block give the bytes that its symbols expand to, and nothing behind the block is consumed |
| Inflate.Inflate.DecodeBlock | external/zlib/inflate.c:1064-1220 | the states LEN to LIT on tables, window and output buffer, with the fast loop wherever there is enough input and room, reach the end of the block or of the call where the machine does |
| Inflate.Inflate.InflateFast | external/zlib/inffast.c:50-307 | from LEN with 6 bytes of input and 258 of room the fast loop ends in a state that the slow states reach, with the unneeded bytes given back, inside both buffers |
| Inflate.Inflate.FastRound | external/zlib/inffast.c:103-291 | one round takes no more than six bytes of input and no more than 258 of room, and is steps of the machine |
| InflateAhead.SymbolAhead | external/zlib/inffast.c:103-150 | decoding a symbol with more bytes in the accumulator than needed gives what decoding it with just enough does |
| InflateTable.InflateTable | external/zlib/inftrees.c:32-304 | every bit string that starts with a symbol's canonical code looks up that symbol and consumes its length; -1 exactly for the refused sets; never 1 for what inflate() asks |
| InflateTable.SnugFits | external/zlib/inftrees.h:38-60 | 286 lengths with 9 index bits never need more than 852 entries, and 30 with 6 never more than 592 |
| InflateTable.SlackFits | external/zlib/inftrees.h:38-52 | the counting behind it: entries against symbols in the sub-tables, with the parity that saves the last entry |
| InflateTable.NextCode | external/zlib/inftrees.c:239-248 | the backwards increment of a reversed code is the reversal of the next code, wrapping to zero |
| InflateTable.SubTableBits | external/zlib/inftrees.c:266-274 | the look-ahead finds the least size that holds all codes of a sub-table, and there are symbols enough left to need it |
| CanonicalCode.MatchUnique | external/zlib/inftrees.c:77-87 | at most one symbol's canonical code starts a given bit string |
| CanonicalCode.SomeMatch | external/zlib/inftrees.c:77-87 | in a complete code every bit string starts with some symbol's code |
| Window.Window.UpdateWindow | external/zlib/inflate.c:399-447 | after any output the window holds the last bytes of all output, as many as fit, at their places in the circle |
| Window.Window.GetDictionary | external/zlib/inflate.c:1318-1339 | reading the circle from its oldest byte gives exactly the end of all output |
| SyncSearch.SyncSearch | external/zlib/inflate.c:1404-1425 | over any chunks it stops right behind the first 00 00 FF FF, or reports the longest part of the pattern that ends the data |
| FlushBlock.TreeState.FlushBlock | external/zlib/trees.c:912-1009 | for any buffered symbols and any memLevel, the bits appended are those of one encoding of the symbols, stored only when the bytes are at hand; the header is the best for the symbols, and the choice follows the exact sizes |
| FlushBlock.ChosenBound | external/zlib/trees.c:936-1001 | a block whose bytes are at hand costs at most 42 bits more than they do; the block is within 7 bits of the best encoding allowed, or 17 when stored |
| FlushBlock.ChosenLeast | external/zlib/trees.c:936-1001 | of the encodings allowed, the one with the fewest bytes; stored where that is no longer than the others, and else fixed where that is no longer than dynamic |
| FlushBlock.BuildTrees | external/zlib/trees.c:930-945 | opt_len and static_len are the exact numbers of bits of the dynamic and the fixed encoding |
| FlushBlock.TreeState.Tally | external/zlib/trees.c:1014-1037 | the symbol is in the buffer, the counts are those of all buffered symbols, and full says that the buffer is |
| Overlay.DynamicAhead | external/zlib/deflate.c:323-360 | with any buffer for 128 symbols or more, the output of a dynamic block that is smaller than the fixed one never reaches a symbol not yet read |
| SymbolSizes.UncutPrefix | external/zlib/deflate.c:323-360 | in a best code that was not shortened the first k symbols take at most 24 k + 2 n + 1 bits |
| Overlay.LimitedAhead | external/zlib/deflate.c:323-360 | the same safety for shortened codes too, which takes 2584 symbols and so a buffer for 4096 or more (smaller ones never see them) |
| SmallBuffer.SmallPrefix | external/zlib/deflate.c:323-360 | in the smallest buffer, of 128 symbols, header and first k symbols take at most 24 k + 1013 bits, as what the codes save on some symbols pays for the header and the long codes |
| HeaderSize.ShortHeaderBound | external/zlib/trees.c:748-857 | with code lengths up to 12 the header of a dynamic block takes at most 1332 bits, and at most 400 and 11 more for each literal and length used |
| CompressBlock.FixedAhead | external/zlib/deflate.c:323-360 | the output of a fixed block never reaches a symbol not yet read |
| CompressBlock.CompressBlock | external/zlib/trees.c:1042-1087 | the symbols read back from the shared buffer are the tallied ones, and their codes are appended in order |
| Trees.BuildTree | external/zlib/trees.c:615-697 | a complete code of limited length; cut exactly when the tree is too deep; if not cut, of least total size among all prefix codes, and among those of this size with the shortest longest code; if cut, still no larger than a code with equal lengths; rarer symbols never get shorter codes; and which symbols are added when fewer than two occur |
| HuffmanShape.HuffmanOptimal | external/zlib/trees.c:661-687 | a tree made by always joining two lightest nodes costs no more than any other prefix code |
| HuffmanHeight.ShortestLongest | external/zlib/trees.c:436-443 | of all prefix codes of the least cost, none has a shorter longest code than that of merging by weight and then by height |
| GenBitlen.GenBitlen | external/zlib/trees.c:486-563 | Kraft sum one, the limit kept, the cost added to both sizes; cut if and only if the tree is deeper than the limit; cut or not, no larger than codes of equal lengths |
| GenBitlen.NoOverflow | external/zlib/trees.c:486-533 | without an overflow the lengths are the depths, and cost the least of all prefix codes |
| GenBitlen.AfterRepair | external/zlib/trees.c:533-561 | the repaired level counts have Kraft sum one and as many codes as before |
| GenBitlen.SteepAfterRepair | external/zlib/trees.c:533-561 | the repair leaves symbols with short codes short, level by level |
| RepairCost.RepairedCost | external/zlib/trees.c:533-561 | the lengths that the repair leaves cost at most t bits for every symbol whenever t bits give codes enough, by trading what it adds against what Huffman saved |
| HuffmanDepth.DeepIsHeavy | external/zlib/trees.c:486-533 | a node of depth d in a Huffman tree stands for so many symbols that the Fibonacci numbers bound its frequency |
| Trees.GenCodes | external/zlib/trees.c:572-605 | every code is the bit reversal of the canonical code of its length, and no length changes |
| Heap.PqDownHeap | external/zlib/trees.c:451-474 | the heap order holds from k on, with the same nodes in the heap |
| TreeHeader.TreeItemsExpand | external/zlib/trees.c:748-793 | the items that describe the lengths of a tree expand to exactly these lengths |
| TreeHeader.ItemsByRuns | external/zlib/trees.c:703-793 | every run of one length has items of its own: zeros in full items of 138 and one for the rest, from three on; another length once and then in repeats of six and one for the rest, from three on |
| TreeHeader.ScanTree | external/zlib/trees.c:703-744 | what is counted are exactly the items that are sent |
| TreeHeader.SendTree | external/zlib/trees.c:748-793 | what is sent are the codes of these items and their extra bits |
| DynamicTrees.BuildBlTree | external/zlib/trees.c:799-827 | a code for all items of both trees, as many of its lengths as are needed, the exact size of the header, and items no larger than with codes of equal lengths |
| DynamicTrees.SendAllTrees | external/zlib/trees.c:834-857 | the bits appended are the header of a dynamic block |
| BitWriter.BitWriter.SendBits | external/zlib/trees.c:186-216 | the bits of the value are appended to everything written, low bit first |
| BitWriter.BitWriter.BiWindup | external/zlib/trees.c:1168-1181 | the output is zero-padded to a whole byte, and nothing is held back |
| Deflate.Deflate.Compress | external/zlib/deflate.c:1054-1062 | whatever the call sequence and the room of each call, the flushed blocks and what is still kept stand for all input so far, and the record explains all symbols; at the end the blocks replay all of it |
| Deflate.Deflate.DeflateSlow | external/zlib/deflate.c:1979-2102 | lazy evaluation replays the input, and gets further whenever it stops for lack of space; all symbols of all calls are explained by a record of what was found at each place, searched with 262 bytes ahead or at the end of the input |
| Deflate.Deflate.DeflateFast | external/zlib/deflate.c:1877-1972 | so does taking matches as they are found, with the same kind of record |
| Deflate.Deflate.DeflateRle | external/zlib/deflate.c:2110-2178 | and so does taking runs of one byte |
| Choices.LiteralWhy | external/zlib/deflate.c:2013-2090 | a literal stands only where no search was due, nothing longer than the match before was found or it was dropped, or where a longer match was found at the next place |
| Choices.MatchWhy | external/zlib/deflate.c:2013-2064 | a match is the one found at its place, longer than the one before; with lazy evaluation the next place was searched for a longer one in vain |
| Choices.RunWhy | external/zlib/deflate.c:2133-2152 | a literal stands only where the next three bytes do not repeat the one before, and a match is as long as they do |
| Deflate.Deflate.LongestMatch | external/zlib/deflate.c:1278-1422 | a result above prev_length is a true match within the lookahead; all candidates from the latest back were looked at until one of the source's reasons to stop, and none is longer |
| Deflate.Deflate.FillWindow | external/zlib/deflate.c:1527-1638 | window, chains and pending match keep their meaning over slides and refills, and there is lookahead enough or no input left |
| Hash.ThirdByte | external/zlib/deflate.c:1379-1386 | with equal hashes and two equal bytes the third bytes are equal, so they need not be compared |
| HashChain.ChainsInsert | external/zlib/deflate.c:164-182 | after an insertion every chain leads to the latest older string with its hash |
| HashChain.ChainsSlide | external/zlib/deflate.c:198-221 | after a slide it still does, for all strings that are left in the window |
| Replay.BlocksReplay | external/zlib/deflate.c:1644-1667 | blocks written for what was flushed stand for the data, whichever encodings they got |
| Crc32.Crc32Z | external/zlib/crc32.c:748-1067 | braided over any number of braids from one to six, in words of four or eight bytes, from any address, the result is the bit-at-a-time remainder |
| Crc32.CheckValue | external/zlib/crc32.c:150 | the CRC of the nine digits 1 to 9 as a number |
| Crc32.MultModP | external/zlib/crc32.c:551-569 | multiplication of polynomials modulo p(x) |
| Crc32.X2nModP | external/zlib/crc32.c:575-588 | the power of x with exponent n * 2^k, for any exponent, though the table of squares wraps at 32 |
| Crc32.Braid | external/zlib/crc32.c:514-527 | each table entry is what a byte of a word contributes behind the other braids, for both sizes of words |
| Crc32.MakeCrcTable | external/zlib/crc32.c:282-316 | both tables hold what their entries stand for |
| Crc32.Crc32Combine64 | external/zlib/crc32.c:1081-1090 | the first checksum moved on by the length of the second piece, plus the second |
| Crc32.CombineIsConcat | external/zlib/crc32.c:1081-1090 | and that is the checksum of both pieces together |
| Polynomial.PowersTo2To32 | external/zlib/crc32.c:575-588 | squaring x 32 times gives x again, which is why the table may wrap |
| Adler32.Adler32Z | external/zlib/adler32.c:63-130 | the deferred reductions give the byte-at-a-time definition, and no sum passes 32 bits |
| Adler32.LargestPrime | external/zlib/adler32.c:12 | the modulus is prime, and there is no greater prime below 65536 |
| Adler32.FullBytesChecksum | external/zlib/adler32.c:63-130 | the checksum of 257 bytes 0xff as a number |
| Adler32.NmaxIsLargest | external/zlib/adler32.c:12-14 | with one byte more than NMAX the second sum can pass 32 bits |
| Adler32.Adler32Combine | external/zlib/adler32.c:143-169 | both sums of the combination, reduced by subtractions only, and the clue for a negative length |
| Adler32.CombineIsConcat | external/zlib/adler32.c:143-169 | they are the sums of both pieces together, wherever the first one started |

## Left out

- Compress: the space of a call is given as the number of blocks that take it up, the last of them perhaps in part (none when output from earlier calls takes all of it); which bytes of a block pass on in which call is not modelled. The flush values are Z_NO_FLUSH and Z_FINISH.
- deflate_stored() and level 0, deflateParams(), deflateTune(), preset dictionaries, and high_water (the window starts with any contents here).
- opt_len and static_len are unbounded numbers; their sums fit 32 bits because the frequencies fit 16.
- Crc32Z: words are little-endian; the big-endian and ARM variants are not modelled.
- Unrolled loops (the bytes of a match, DO16, the braids) are loops.
- gzip and zlib headers and trailers, inflateSync() around the search, inflateMark(), inflatePrime() and allowing distances that are too far back.
- Windows of fewer than 15 bits in the decoder: there a distance may be refused or not depending on how calls were split.
- infback.c, the gz* files, compress.c and uncompr.c, and all of the application in src.
