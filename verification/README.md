# CloudRedirect core: a verified model

This project models two parts of the repository in Dafny and proves what they are for.

**The DEFLATE compressor** (`src/common/miniz_tdef.c`, with Adler-32 from `src/common/miniz.c`). The model follows the
compressor function by function, on arrays and fields where the source works on them: radix sort, in-place
minimum-redundancy lengths, length limiting, canonical codes, run-length packing of the code lengths, the bit writer, the
flag-packed token buffer, the wrapping window with its mirror, lazy matching, block output with its raw and static
fallbacks, and the whole compressor. A decoder written from RFC 1951 and RFC 1950 (`Inflater`, `Stream`) is the
independent reference; like the repository's own decoder (`src/common/miniz_tinfl.c:342-351`) it refuses overfull and
incomplete codes. The main result is `Deflater.Compressor.Compress` with `CompressMemToOutput` and `CompressInPieces`: for
every input, every split into calls, every choice of flushes and every flag setting, the compressor succeeds unless the
output function refuses one of its calls, and what it delivers decodes to what it was given.

That it always succeeds rests on a bound for the size of a block. Optimal code lengths cost no more than the fixed code;
cutting them off at 15 bits costs at most one more bit per symbol occurrence (`LimitPenalty`, `TableCost`); so a dynamic
block is never much larger than a static one, and every block fits the output buffer (`BlockSize`). The assertion at
`src/common/miniz_tdef.c:718` therefore holds on every run, and the fallback at lines 677-683, which the source calls
extremely unlikely if not impossible, is impossible.

**The cloud-sync engine**: the background work queue, the content-addressed blob store with verify, heal, publish and
garbage collection, the promote-or-rollback download, batch tracking and merge, manifest deltas, and the state and JSON
codec. The provider is a map from path to bytes; every call on it may fail, also after having taken effect. Each critical
section is one step. Runs are arbitrary sequences of steps, and the results are invariants over all of them.

## How the files fit together

| files | subject |
|---|---|
| Options, Bits | missing values, bit strings |
| RadixSort, MinRedundancy, HuffmanOptimality, LengthHistogram, LengthLimit, LimitPenalty, CanonicalCode, RankedSymbols, TableCost, HuffmanTable | code construction and what it costs |
| LzTokens, LzAlphabet, TokenBuffer, Window, RunLengths | tokens, their buffer, and matching |
| BitWriter, CodeLengthRle, DynamicHeader, BlockFormat, Blocks, BlockCoder, BlockSize, DynamicBlock, BlockFlush, BlockExpands | writing blocks, their size, and the choice of form |
| Inflater, Stream, Adler32, Deflater | the decoder, streams of blocks, checksum, the compressor |
| WorkQueueModel, WorkQueueSafety, WorkQueueRuns, WorkQueue | the queue as a state machine, its invariant and bounds, and the class that implements it |
| WorkQueueOrder, WorkQueueLastWriter, WorkQueueUploads | runs in which the last writer loses, and exactly when it wins |
| WorkQueueConditional, WorkQueueMeaning, WorkQueueContent | conditional uploads, the queue as a program, and content-addressed paths |
| BlobGc, CloudStore | garbage collection decisions; the store and its operations |
| PromoteRollback, BatchMerge, ManifestDelta | download promotion, batches, manifest deltas |
| Json, JsonRoundTrip, JsonParser, StateCodec, StateRoundTrip, AppState | JSON and the cloud state |

A class method is proved equal to a specification function, or states its result outright; the lemmas beside it prove what
that function guarantees. Arbitrary choices (map iteration order, provider answers, due times, which requests other
threads make) are parameters or function arguments quantified over.

## Where the obvious claim is false

- The last writer for a path does not always win: `WorkQueueOrder.LastUploadDropped`, `LastUploadDroppedInHand`, `DeleteOvertaken` and
  `OlderBehindNewer` are complete runs from the start that end otherwise. `WorkQueueLastWriter` names the steps that lose
  the newest work on a path, each by the guard of its branch, and proves that exactly those do (`StaysOnTrack`); without
  them the last writer wins whatever fails (`LastWriterWins`). On a path that is only uploaded to, two guards are left
  (`WorkQueueUploads.LastUploadWins`): a different upload dropped as a repetition, where different means different from
  the newest copy, whether queued, in a worker's hands or stored, and a drain requeueing behind a queued upload.
- An upload that happens only when nothing is there does not always give way to an unconditional one
  (`WorkQueueOrder.DeletedComesBack`, `RetryGivesWay`). `WorkQueueMeaning` reads the queue as a program, conditional
  uploads included: every step keeps what it stands for exactly if it is none of a few named cases (`StepMeans`), and
  without them the provider ends with what carrying everything out in order leaves (`QueueIsTransparent`). Where every
  upload of a path carries the same bytes, as for content-addressed blobs, order does not matter
  (`WorkQueueContent.ContentArrives`).
- A published entry can lack its blob if a hash recorded as durable was collected in between
  (`CloudStore.DurableHashTrusted`); `Publish` says that after a success all entries have blobs exactly if those accepted
  for that reason had one before, and `RunSteps` proves the claim up to that event.
- Garbage collection can remove the only copy of what the cloud state stands for when the local manifest disagrees
  (`BlobGc.DisagreementLoses`), or when a cached listing still names a canonical blob that is gone (`StaleListingLoses`).
  `CloudCopyKeptIff` and `MatchingCopyKeptIff` say exactly when the bytes are kept.
- An empty current manifest yields an empty delta, not a list of deletions (`src/common/manifest_store.cpp:697`);
  `ManifestDelta.ManifestStore.ComputeDelta` states exactly when applying the delta gives the current names.
- The comment at `src/common/miniz_tdef.c:656-657` says a block that does not shrink is sent raw; that holds only while
  the block is still in the window. `BlockFlush.PutBlock` says exactly which form is sent, and
  `BlockExpands` has an input of 33580 bytes, 200 and 201 in turn and then one long run, that goes out in 34893
  (`SentThoughUnshrunk`, `CompressUnshrunk`).

## Model

| member | source | states |
|---|---|---|
| `RadixSort.RadixSortSyms` | src/common/miniz_tdef.c:100-131 | The buffer handed back holds a stable ascending rearrangement of the input by 16-bit key, also when the high-byte pass is skipped; nothing beyond the n elements matters. |
| `RadixSort.TwoPassesSort` | src/common/miniz_tdef.c:113-129 | Distributing by low byte and then by high byte is a stable ascending sort: ordered, the same multiset, and elements of equal key in their old order. |
| `RadixSort.OnePassSorts` | src/common/miniz_tdef.c:111-112 | When every high byte is zero the low-byte pass alone is a stable ascending sort. |
| `RadixSort.BucketsStable` | src/common/miniz_tdef.c:122-128 | One distribution pass keeps the order of elements with equal keys. |
| `RadixSort.BucketsPermute` | src/common/miniz_tdef.c:122-128 | One distribution pass neither loses nor invents elements. |
| `RadixSort.Histogram` | src/common/miniz_tdef.c:104-110 | One sweep gives, for both byte positions, how many keys have each byte value. |
| `RadixSort.Distribute` | src/common/miniz_tdef.c:113-129 | The in-place pass writes exactly the buckets of the source buffer, one after the other, into the other buffer. |
| `RadixSort.PlacedStep` | src/common/miniz_tdef.c:122-128 | Writing the next element at its bucket's offset leaves every other bucket as it was and stays within the buffer. |
| `MinRedundancy.CalculateMinimumRedundancy` | src/common/miniz_tdef.c:134-187 | For ascending positive keys totalling at most 65535 the array ends with leaf depths of a greedy two-smallest merge tree over those keys, on the same symbols; one key gets length 1. |
| `MinRedundancy.SmallestTwo` | src/common/miniz_tdef.c:147-163 | The two queue fronts the merging loop takes are the two smallest items left, ties going to the leaf, and taking them keeps every later front at least as heavy. |
| `MinRedundancy.Extend` | src/common/miniz_tdef.c:147-163 | Each merge keeps the merge trace greedy, its node weights ascending and its total mass. |
| `MinRedundancy.WeightFits` | src/common/miniz_tdef.c:147-163 | No 16-bit weight overflows: an internal node never weighs more than all keys together. |
| `MinRedundancy.MergeAll` | src/common/miniz_tdef.c:139-163 | After the merging loop the array holds parent links for all merged nodes and one root weighing what all keys weigh. |
| `MinRedundancy.NodeDepths` | src/common/miniz_tdef.c:164-166 | Walking the links backwards replaces every parent link by the depth of that internal node, each parent being read after its own depth is final. |
| `MinRedundancy.WriteLevel` | src/common/miniz_tdef.c:171-186 | One level of leaves is written only over entries that will not be read again, so no internal-node depth is lost. |
| `MinRedundancy.LeafLengths` | src/common/miniz_tdef.c:167-186 | The last loop turns internal-node depths into the depth of every leaf, in place. |
| `HuffmanOptimality.KraftIsOne` | src/common/miniz_tdef.c:134-187 | The code lengths have Kraft sum exactly 1. |
| `HuffmanOptimality.LengthsDescend` | src/common/miniz_tdef.c:134-187 | Heavier keys never get longer codes: the lengths are non-increasing. |
| `HuffmanOptimality.DepthFits` | src/common/miniz_tdef.c:134-187 | With at most 65535 symbol occurrences no code is longer than 22, so the histogram of 33 slots is never overrun. |
| `HuffmanOptimality.Optimal` | src/common/miniz_tdef.c:134-187 | No code lengths with Kraft sum at most 1 have a smaller weighted length: the result is optimal over all prefix codes. |
| `HuffmanOptimality.Exchange` | src/common/miniz_tdef.c:134-187 | Giving the longer of two codes to the lighter item keeps the Kraft sum and does not raise the cost. |
| `HuffmanOptimality.MergeSiblings` | src/common/miniz_tdef.c:147-163 | Replacing two codes of equal length by their common prefix lowers the cost by exactly the two weights and keeps the Kraft sum. |
| `HuffmanOptimality.CostOfMerges` | src/common/miniz_tdef.c:147-163 | The weighted length of the code is the sum of the weights of all merges. |
| `LengthLimit.EnforceMaxCodeSize` | src/common/miniz_tdef.c:194-216 | A complete histogram of at most 2^max codes becomes one with as many codes, none longer than max, Kraft sum exactly 1 and no negative count; the loop terminates, and a histogram without longer codes is left as it is. |
| `LengthLimit.ClampExcess` | src/common/miniz_tdef.c:200-201 | Clamping the long codes overfills the code space by no more than the number of codes of length max. |
| `LengthLimit.Demote` | src/common/miniz_tdef.c:204-215 | One round (one code of length max less, one shorter code turned into two one bit longer) lowers the Kraft sum by exactly one unit and keeps the number of codes. |
| `LengthLimit.DemoteLongest` | src/common/miniz_tdef.c:204-215 | While the code space is overfull a shorter code to demote exists; one round demotes the longest such code, lowers the Kraft sum by one unit and keeps the number of codes. |
| `LengthLimit.KraftTotal` | src/common/miniz_tdef.c:202-203 | The 32-bit total equals the Kraft sum and never wraps. |
| `LimitPenalty.LimitCosts` | src/common/miniz_tdef.c:194-216 | Limiting the optimal lengths to 15 bits costs at most one bit per occurrence, with at most 32 symbols an eighth of a bit: a code is lengthened only when its symbol is rare. |
| `HuffmanTable.OptimizeTable` | src/common/miniz_tdef.c:219-269 | For any symbol counts: every used symbol and no other gets a length of at most the limit, more frequent symbols never get longer ones, the lengths form a prefix code that is complete or has a single symbol, and the codes are the canonical ones, bit-reversed. At the limit of 15 no prefix code saves more than a bit per occurrence, with at most 32 symbols no more than an eighth, and with too few occurrences for a code that long none saves anything. |
| `HuffmanTable.GiveLengths` | src/common/miniz_tdef.c:246-252 | Exactly num[l] symbols get length l, handed out from the least frequent backwards. |
| `HuffmanTable.HandOut` | src/common/miniz_tdef.c:250-252 | One length is given to exactly the next count symbols of the ranking. |
| `HuffmanTable.FirstCodes` | src/common/miniz_tdef.c:255-257 | The first code of each length is that of section 3.2.2 of RFC 1951. |
| `HuffmanTable.AssignCodes` | src/common/miniz_tdef.c:259-268 | Every symbol with a length gets the canonical code of that length, reversed for sending. |
| `LengthHistogram.HistOfLengths` | src/common/miniz_tdef.c:243-245 | The histogram of the measured lengths has the same Kraft sum and as many codes as there are symbols. |
| `HuffmanTable.StaticCodes` | src/common/miniz_tdef.c:223-227 | With the lengths given, only the canonical codes are computed. |
| `TableCost.CheapLengths` | src/common/miniz_tdef.c:229-252 | From the optimal lengths to the ones given out: what all symbols cost exceeds the cost under any prefix code by no more than that. |
| `CanonicalCode.CodeFits` | src/common/miniz_tdef.c:255-268 | Whenever the Kraft sum is at most 1, each code fits in its length. |
| `CanonicalCode.PrefixFree` | src/common/miniz_tdef.c:255-268 | No code is a prefix of another. |
| `CanonicalCode.DecodeCode` | src/common/miniz_tdef.c:255-268 | Decoding is unique: a code at the head of any bits decodes to its symbol, whatever follows. |
| `CanonicalCode.LongerCodesAbove` | src/common/miniz_tdef.c:256-257 | Codes of length l+k lie past every code of length l extended by k bits. |
| `BitWriter.Writer.PutBits` | src/common/miniz_tdef.c:271-287 | While space lasts, the bytes out plus the fewer than 8 pending bits are the old bits followed by the len bits put; output becomes full only when the bits do not fit, and earlier bytes stay. |
| `BitWriter.Writer.Put` | src/common/miniz_tdef.c:271-287 | Relative to a saved point, the bits put since grow by exactly these. |
| `BitWriter.Writer.Restore` | src/common/miniz_tdef.c:660-663 | Going back to a saved point forgets exactly what was put since. |
| `BitWriter.Writer.DrainByte` | src/common/miniz_tdef.c:279-285 | Moving one byte from the accumulator to the output changes no bit of the stream. |
| `Bits.FromToBits` | src/common/miniz_tdef.c:271-287 | Reading n packed bits back gives the number that was packed. |
| `Bits.MsbInjective` | src/common/miniz_tdef.c:259-268 | Codes of one length are told apart by their bits. |
| `CodeLengthRle.Packer.PackAll` | src/common/miniz_tdef.c:358-397 | Decoding the packed run-length form by section 3.2.7 of RFC 1951 gives exactly the code lengths; the packed bytes never outgrow the array, and the 19 counts are the true symbol counts. |
| `CodeLengthRle.Packer.Take` | src/common/miniz_tdef.c:363-389 | One round keeps: the instructions so far plus the pending run stand for exactly the lengths consumed. |
| `CodeLengthRle.Packer.FlushRepeats` | src/common/miniz_tdef.c:289-307 | The pending run of repeats is turned into instructions standing for exactly it. |
| `CodeLengthRle.Packer.FlushZeros` | src/common/miniz_tdef.c:309-333 | The pending run of zeros is turned into instructions standing for exactly it. |
| `CodeLengthRle.PackedNoLonger` | src/common/miniz_tdef.c:358-397 | Every instruction yields at least as many lengths as it takes bytes. |
| `DynamicHeader.OpsReadBack` | src/common/miniz_tdef.c:414-421 | Reading the coded instructions carries them all out, in order. |
| `DynamicHeader.ClReadBack` | src/common/miniz_tdef.c:406-412 | The third table's lengths, sent in the fixed order with trailing zeros left off, are read back exactly. |
| `DynamicHeader.HeaderReadBack` | src/common/miniz_tdef.c:401-421 | A decoder that refuses overfull and incomplete codes recovers exactly the code lengths that were packed, and the bits after the header. |
| `DynamicBlock.BuildTables` | src/common/miniz_tdef.c:337-346 | Both tables are built from the symbol histograms, give every symbol that occurs, end-of-block included, a code, are complete, and are economical: no other tables save more than a bit and an eighth per token. |
| `DynamicBlock.SentCount` | src/common/miniz_tdef.c:348-353 | How many lengths are sent: exactly the trailing zeros are left off, down to the required minimum. |
| `DynamicBlock.PackLengths` | src/common/miniz_tdef.c:355-399 | The lengths of both tables are packed and the third table codes every instruction used. |
| `DynamicBlock.PutHeader` | src/common/miniz_tdef.c:401-421 | The header written is the one describing both tables. |
| `DynamicBlock.StartDynamicBlock` | src/common/miniz_tdef.c:337-422 | A dynamic block starts with its kind and a header from which both tables are read back. |
| `DynamicBlock.CompressBlock` | src/common/miniz_tdef.c:592-599 | What is written is a complete block of the chosen kind for exactly the recorded tokens, economically coded if dynamic, and success means it fitted. |
| `BlockSize.DataCost` | src/common/miniz_tdef.c:544-589 | The bits of a block's data are the cost of its histograms under the two tables, plus the extra bits. |
| `BlockSize.CheapIsEconomical` | src/common/miniz_tdef.c:337-346 | Tables built from the histograms need at most nine eighths of a bit per token, and a bit, more than any other tables for the same tokens; with fewer than 1596 tokens nothing more. |
| `BlockSize.EconomicalSize` | src/common/miniz_tdef.c:544-589 | Economical tables send at most 257 bits for every 25 bytes of the token buffer. |
| `BlockSize.HeaderSize` | src/common/miniz_tdef.c:396-418 | The header of a dynamic block takes at most 4495 bits. |
| `LzTokens.GenuineMatch` | src/common/miniz_tdef.c:829-871 | A match found in the data expands to that very data, overlapping copies included. |
| `LzTokens.ExpandSnoc` | src/common/miniz_tdef.c:1059-1098 | Expanding one more token appends exactly what it stands for. |
| `LzTokens.LayoutAppend` | src/common/miniz_tdef.c:1059-1098 | The flag-and-payload layout is built group by group. |
| `LzTokens.ReadNext` | src/common/miniz_tdef.c:548-587 | The lowest flag tells what the next token is, and its payload is the next bytes. |
| `LzTokens.PayloadKeepsMatch` | src/common/miniz_tdef.c:1080-1085 | A match survives the three bytes it is packed into. |
| `LzAlphabet.LenRoundTrip` | src/common/miniz_tdef.c:561-565 | Length symbol, base and extra bits give back the length (section 3.2.5 of RFC 1951). |
| `LzAlphabet.DistRoundTrip` | src/common/miniz_tdef.c:567-578 | Distance symbol, base and extra bits give back the distance. |
| `LzAlphabet.DistFits` | src/common/miniz_tdef.c:1094-1096 | Distances up to 32768 use symbols below 30 and at most 13 extra bits. |
| `TokenBuffer.Buffer.RecordLiteral` | src/common/miniz_tdef.c:1059-1070 | The token sequence grows by this literal and the histograms by its symbol, whatever stale byte a new flag byte holds. |
| `TokenBuffer.Buffer.RecordMatch` | src/common/miniz_tdef.c:1072-1098 | The token sequence grows by this match and both histograms by its symbols. |
| `TokenBuffer.Buffer.Close` | src/common/miniz_tdef.c:618-619 | Closing shifts the last flag byte into place, or drops an unused one: the buffer is then the layout of all tokens recorded, for any number of tokens. |
| `TokenBuffer.Buffer.FewTokens` | src/common/miniz_tdef.c:1059-1098 | The 64 KB buffer cannot hold enough tokens for a 16-bit count to wrap. |
| `TokenBuffer.PackInside` | src/common/miniz_tdef.c:1059-1098 | Recording a token inside a group of eight keeps flags and payloads in step. |
| `TokenBuffer.PackLast` | src/common/miniz_tdef.c:1064-1068 | The eighth token of a group completes its flag byte and claims a new one, whatever that holds. |
| `BlockCoder.CompressLzCodes` | src/common/miniz_tdef.c:544-589 | The bits of exactly the tokens recorded, then end-of-block, are written; success means everything fitted. |
| `BlockCoder.CompressNext` | src/common/miniz_tdef.c:548-584 | One round of the loop writes the next token read back from the buffer. |
| `BlockCoder.HistogramsCode` | src/common/miniz_tdef.c:339-346 | Tables built from the histograms have codes for every token, so nothing is written with an empty code. |
| `BlockCoder.NeverUsed` | src/common/miniz_tdef.c:1059-1098 | Length symbols 286 and 287 and distance symbols 30 and 31 never occur, and no token counts as end-of-block. |
| `BlockCoder.StartStaticBlock` | src/common/miniz_tdef.c:424-444 | The fixed tables of section 3.2.6 of RFC 1951 are set up. |
| `BlockFormat.TokenReadBack` | src/common/miniz_tdef.c:553-581 | One token's code and extra bits decode to it. |
| `BlockFormat.DataReadBack` | src/common/miniz_tdef.c:544-589 | Decoding the bits of a token sequence expands that sequence. |
| `Blocks.FixedTables` | src/common/miniz_tdef.c:424-444 | The fixed code is a complete prefix code. |
| `Blocks.BlockReadBack` | src/common/miniz_tdef.c:603-756 | A decoder of section 3.2.3 of RFC 1951 that refuses overfull and incomplete codes reads a block of any kind back to its data and stops exactly behind it, whatever follows. |
| `Blocks.FixedSize` | src/common/miniz_tdef.c:677-683 | A block in the fixed code takes at most ten bits for every byte of the token buffer. |
| `BlockFlush.PutRaw` | src/common/miniz_tdef.c:657-676 | The stored form is written from the window after forgetting the compressed attempt. |
| `BlockFlush.PutStaticAgain` | src/common/miniz_tdef.c:678-683 | After going back to the saved point, the fixed form of the same tokens is written. |
| `BlockFlush.PutBlock` | src/common/miniz_tdef.c:649-683 | Exactly which form is written: raw if forced, or if the window still has the block and writing it in the form tried first moved the output by at least as many bytes as the block has, less one; otherwise the form tried first, static if forced or under 48 bytes, dynamic if not. The second, static try is never needed. |
| `BlockFlush.PutFlush` | src/common/miniz_tdef.c:603-718 | One flush writes exactly header, block and trailer, and always leaves room in the output buffer: the assertion at line 718 holds. |
| `BlockFlush.AttemptFits` | src/common/miniz_tdef.c:612-718 | No block, static or dynamic, is larger than 678300 bits, which with its surroundings fits the 85180 bytes of output. |
| `BlockExpands.SentThoughUnshrunk` | src/common/miniz_tdef.c:656-676 | An input of 33580 bytes is parsed into 31000 literals and 10 matches; nothing closes the block earlier, the window no longer holds it, the fixed code does not shrink it, and its body takes 279137 bits. |
| `BlockExpands.RunsOfData` | src/common/miniz_tdef.c:1159-1222 | What the run matcher and the parser make of that input. |
| `BlockExpands.CompressUnshrunk` | src/common/miniz_tdef.c:1386-1399 | Compressing it, with runs only and fixed blocks, gives more bytes than it has: 34893, or 34899 with the zlib wrapping, unless the output function refuses a call; they decode to it all the same. |
| `BlockFlush.PutZlibHeader` | src/common/miniz_tdef.c:621-645 | The two zlib header bytes, a multiple of 31, with the level found by searching the presets. |
| `BlockFlush.PutChecksum` | src/common/miniz_tdef.c:693-701 | The checksum goes out highest byte first. |
| `BlockFlush.PutTrailer` | src/common/miniz_tdef.c:685-716 | Padding and checksum at the end, or an empty stored block for a sync, and the stream is byte-aligned after any flush. |
| `Stream.Extend` | src/common/miniz_tdef.c:603-756 | A stream decoding to data, followed by one more block, decodes to the data and the block's. |
| `Stream.Close` | src/common/miniz_tdef.c:603-756 | A last block ends the stream, whatever lies behind it. |
| `Stream.FlushExtends` | src/common/miniz_tdef.c:603-756 | A flush that does not finish leaves a stream whose blocks decode to everything so far. |
| `Stream.FlushCompletes` | src/common/miniz_tdef.c:603-756 | A finishing flush completes the stream, padding and checksum included. |
| `Stream.RawDecodes` | src/common/miniz_tdef.c:603-756 | A finished raw stream decodes to its data. |
| `Stream.ZlibDecodes` | src/common/miniz_tdef.c:603-756 | A finished zlib stream decodes, header and Adler-32 checked (section 2.2 of RFC 1950). |
| `Stream.CompleteDecodes` | src/common/miniz_tdef.c:603-756 | A complete stream decodes to its data with the decoder of its format. |
| `Window.ReadAcross` | src/common/miniz_tdef.c:1121-1123 | Reading the wrapping 32K window with its 257-byte mirror anywhere, also across its end, gives the bytes of the unbounded history. |
| `Window.HoldsSnoc` | src/common/miniz_tdef.c:1121-1123 | Storing a byte and mirroring it keeps the window a copy of the last 32768 bytes. |
| `Window.Window.Fill` | src/common/miniz_tdef.c:1110-1150 | The lookahead is topped up to 258 bytes by exactly the next input bytes; the dictionary shrinks to what is still intact. |
| `Window.Window.FillFirst` | src/common/miniz_tdef.c:1131-1149 | The slow branch for the first bytes stores the same bytes and keeps the chains in range. |
| `Window.Window.Compare` | src/common/miniz_tdef.c:857-861 | How many bytes two places in the window agree on, at most max. |
| `Window.Window.FindMatch` | src/common/miniz_tdef.c:829-871 | Whatever the hash chains hold, a match reported is longer than the one offered, within dictionary and lookahead, and genuine; otherwise the offer is returned. |
| `Window.Window.FindRun` | src/common/miniz_tdef.c:1159-1176 | The run-length matcher reports the longest genuine match at distance 1. |
| `Window.Window.Advance` | src/common/miniz_tdef.c:1224-1227 | The parser moves on and the dictionary grows, to 32768 at most. |
| `Adler32.Compose` | src/common/miniz.c:40-66 | The checksum of a concatenation continues from that of the first part. |
| `Adler32.NoOverflow` | src/common/miniz.c:48-63 | Over a block of 5552 bytes, or a shorter first block from any seed, neither running sum leaves 32 bits. |
| `Adler32.DeferredRemainder` | src/common/miniz.c:48-63 | Reducing once per block gives the sums reduced after every byte. |
| `Adler32.Checksum` | src/common/miniz.c:40-66 | For every 32-bit seed and all data, an empty first block included: the checksum of section 2.2 of RFC 1950 continued from the seed; without data the seed itself. |
| `Deflater.Compressor.constructor` | src/common/miniz_tdef.c:1340-1374 | A fresh compressor has consumed and written nothing and satisfies the invariant. |
| `Deflater.Compressor.FindCurrent` | src/common/miniz_tdef.c:1155-1184 | The match considered at the parser is none or one that may be recorded, and is longer than the waiting one only if it is one; with runs only it is the run at the parser, or none where that is too short or dropped. |
| `Deflater.Compressor.Step` | src/common/miniz_tdef.c:1155-1227 | One round of the lazy parser keeps: the recorded tokens expand to exactly the history up to the parser, short of the one pending byte; with runs only exactly the token of the run at the parser is recorded. |
| `RunLengths.RunIs` | src/common/miniz_tdef.c:1166-1176 | The longest match at distance 1 is the number of bytes that repeat the one before. |
| `RunLengths.NextRun` | src/common/miniz_tdef.c:1159-1227 | The next token found with the lookahead at hand is the next token of the whole data. |
| `Deflater.Compressor.CompressNormal` | src/common/miniz_tdef.c:1100-1243 | All input is taken into the history and, with a flush, everything is parsed, under the same invariant; with at most one delivery for each byte parsed. With runs only, and as long as no prefix closes the block, the block holds exactly the tokens of the data. |
| `Deflater.Compressor.WriteOut` | src/common/miniz_tdef.c:608-718 | The block with its surroundings goes into the output buffer; the assertion that room is left always holds; a block that left the window is sent in the fixed code when that is forced. |
| `Deflater.Compressor.FlushBlock` | src/common/miniz_tdef.c:603-756 | One block for everything parsed so far reaches the output function, and the stream grows by exactly it and its surroundings; the stream stays decodable, nothing is pending after a flush, and it fails only if the output function has refused the one call made. |
| `Deflater.Compressor.Compress` | src/common/miniz_tdef.c:1266-1332 | Misuse changes nothing but the status; accepted input is all consumed; after a flush what was delivered decodes block by block to all input so far, and after finishing it is a complete stream. It fails only if the output function has refused the last of its calls, and makes at most one call a byte and one more. |
| `Deflater.CompressMemToOutput` | src/common/miniz_tdef.c:1386-1399 | For all inputs and flags: it succeeds unless the output function refuses one of the first n + 1 calls, n being the length of the input, and then what that received decodes to the input. |
| `Deflater.CompressInPieces` | src/common/miniz_tdef.c:1266-1332 | The same for every split of the input and every choice of flushes in between, with one more call for each piece. |
| `Deflater.Compressor.RawBytes` | src/common/miniz_tdef.c:657-676 | When the raw form is allowed, the window still yields exactly the bytes of the block. |
| `WorkQueue.Queue.EnqueueWork` | src/common/cloud_work_queue.cpp:475-523 | Enqueueing is the specified step: failure forgotten, repetition dropped, queued upload replaced or kept, index updated. |
| `WorkQueue.Queue.PickWork` | src/common/cloud_work_queue.cpp:292-307 | A worker takes the first item that is due and whose path nobody holds, with all counters. |
| `WorkQueue.Queue.CallProvider` | src/common/cloud_work_queue.cpp:351-436 | What the answers of the provider make of the item held; a call that reports failure or faults may have taken effect or not. |
| `WorkQueue.Queue.RequeueFromWorker` | src/common/cloud_work_queue.cpp:525-558 | A retry goes back unless an upload for the path is queued. |
| `WorkQueue.Queue.FinishWork` | src/common/cloud_work_queue.cpp:443-472 | The path is released and the outcome recorded. |
| `WorkQueue.Queue.RequeueFailedWorkForPrefix` | src/common/cloud_work_queue.cpp:215-257 | The loop over the failure map is the sequence of its steps, each record visited once, in some order. |
| `WorkQueue.Queue.HasPendingCommitWork` | src/common/cloud_work_queue.cpp:173-185 | The loops compute exactly the predicate on queue and counters. |
| `WorkQueue.Queue.HasFailedCommitWork` | src/common/cloud_work_queue.cpp:200-205 | The loop computes exactly whether a non-best-effort failure is held under the prefix. |
| `WorkQueue.Queue.DrainQueueForApp` | src/common/cloud_work_queue.cpp:584-645 | When it returns true, with other threads interfering arbitrarily, no non-best-effort item under the prefix is queued, held by a worker or recorded as failed. |
| `WorkQueueSafety.EnqueueKeeps` | src/common/cloud_work_queue.cpp:475-523 | The queue invariant survives an enqueue. |
| `WorkQueueSafety.PickKeeps` | src/common/cloud_work_queue.cpp:292-307 | The queue invariant survives a pick. |
| `WorkQueueSafety.ActKeeps` | src/common/cloud_work_queue.cpp:351-436 | The queue invariant survives the provider calls. |
| `WorkQueueSafety.RequeueKeeps` | src/common/cloud_work_queue.cpp:525-558 | The queue invariant survives a retry. |
| `WorkQueueSafety.FinishKeeps` | src/common/cloud_work_queue.cpp:443-472 | The queue invariant survives the end of an item. |
| `WorkQueueSafety.RequeueAllKeeps` | src/common/cloud_work_queue.cpp:215-257 | The queue invariant survives a drain's requeueing. |
| `WorkQueueRuns.ReachableIsSafe` | src/common/cloud_work_queue.cpp:292-307 | In every reachable state, with any number of workers: each active path is held by exactly one worker, best-effort and delete counters never exceed it, the active-worker count is the sum of the counts, and every index entry points at a live queued upload for its path. (Also lines 443-558.) |
| `WorkQueueRuns.PendingCommitIs` | src/common/cloud_work_queue.cpp:173-185 | The counter arithmetic says exactly whether a non-best-effort item under the prefix is queued or held. |
| `WorkQueueRuns.AfterRequeue` | src/common/cloud_work_queue.cpp:215-257 | After a drain's requeueing a failure record is left only for best-effort items, other prefixes and busy paths, in whatever order the map is walked. |
| `WorkQueueRuns.StepBudget` | src/common/cloud_work_queue.cpp:351-422 | An enqueue adds 28 or 16 to the budget of picks, every other step keeps or lowers it, and a pick lowers it by one. (Also lines 215-257 and 525-558.) |
| `WorkQueueRuns.PicksBounded` | src/common/cloud_work_queue.cpp:351-422 | Every run takes at most 28 picks per upload and 16 per delete enqueued, so with no new work it has finitely many picks. (Also lines 215-257 and 525-558.) |
| `WorkQueueOrder.LastUploadDropped` | src/common/cloud_work_queue.cpp:488-495 | Last writer wins fails: a concrete run from the start in which the last upload is dropped as a repetition and an older queued one remains. |
| `WorkQueueOrder.LastUploadDroppedInHand` | src/common/cloud_work_queue.cpp:488-495 | The same when the other upload is no longer queued but being sent. |
| `WorkQueueOrder.DeleteOvertaken` | src/common/cloud_work_queue.cpp:525-548 | Last writer wins fails: a concrete run from the start in which a retried delete removes the later upload. |
| `WorkQueueOrder.OlderBehindNewer` | src/common/cloud_work_queue.cpp:236-244 | Last writer wins fails: a concrete run from the start in which a drain puts a failed upload behind a newer queued one, and the older content stays. |
| `WorkQueueOrder.DeletedComesBack` | src/common/cloud_work_queue.cpp:497-513 | A concrete run from the start in which an upload, a delete and a conditional upload end with the first content: the conditional one puts the first upload back behind the delete. |
| `WorkQueueOrder.RetryGivesWay` | src/common/cloud_work_queue.cpp:525-531 | A concrete run from the start in which the retry of an unconditional upload is dropped for a conditional one, whose content stays. |
| `WorkQueueLastWriter.EnqueuedIsLast` | src/common/cloud_work_queue.cpp:475-523 | An unconditional upload is last in line exactly if it is not taken for a repetition, or the same content was last already. |
| `WorkQueueLastWriter.PickOvertakes` | src/common/cloud_work_queue.cpp:292-307 | A pick leaves an earlier item for its path behind exactly if there is one that is not due. |
| `WorkQueueLastWriter.DrainAppends` | src/common/cloud_work_queue.cpp:215-257 | A drain appends a recorded item exactly if it is not best-effort, has requeues left and its path is idle; otherwise the queue stays as it is. |
| `WorkQueueLastWriter.EnqueueTracks` | src/common/cloud_work_queue.cpp:475-523 | Enqueueing puts the newest work on the path on track, except exactly when it is dropped as a repetition while the newest copy is another one. |
| `WorkQueueLastWriter.PickTracks` | src/common/cloud_work_queue.cpp:292-307 | A pick loses the newest work exactly if it takes the last item in line past one that does something else. |
| `WorkQueueLastWriter.ActTracks` | src/common/cloud_work_queue.cpp:351-436 | A provider call loses the newest work exactly if it faults without effect and nothing newer is queued; failures never do. |
| `WorkQueueLastWriter.RequeueTracks` | src/common/cloud_work_queue.cpp:525-558 | A retry loses it exactly if it goes behind queued work that does something else. |
| `WorkQueueLastWriter.FinishTracks` | src/common/cloud_work_queue.cpp:443-472 | The end of an item never loses it. |
| `WorkQueueLastWriter.AbandonTracks` | src/common/cloud_work_queue.cpp:309-318 | A worker without a provider loses it exactly if it lets go of the newest item and neither provider nor failure record has it. |
| `WorkQueueLastWriter.DrainTracks` | src/common/cloud_work_queue.cpp:215-257 | A drain loses it exactly if it drops its record or puts an older item behind it. |
| `WorkQueueLastWriter.StaysOnTrack` | src/common/cloud_work_queue.cpp:215-558 | Any step keeps the newest work on a path on track exactly if it is not one of those. |
| `WorkQueueLastWriter.LastWriterWins` | src/common/cloud_work_queue.cpp:215-558 | In every run without a losing step, with uploads and deletes, failures, retries, faults and drains: once the path is quiet the provider holds what was enqueued last, or that is on record as failed. |
| `WorkQueueUploads.StaysSteady` | src/common/cloud_work_queue.cpp:215-558 | On a path that is only uploaded to, at most one upload is queued; while no different upload is dropped as a repetition and no drain requeues behind a queued one, the newest upload stays on track unless it is given up. |
| `WorkQueueUploads.LastUploadWins` | src/common/cloud_work_queue.cpp:215-558 | Then, in every run, the last upload enqueued is what the provider holds once the path is quiet, or it is on record as failed, or it ended in a fault, without a provider, or with its requeues used up. |
| `WorkQueueUploads.LastUploadWinsFromTheStart` | src/common/cloud_work_queue.cpp:215-558 | The same from the initial state for any cloud contents. |
| `WorkQueueConditional.ReachableInLine` | src/common/cloud_work_queue.cpp:497-521 | In every reachable state ids ascend along the queue and the index points at the newest upload queued for its path. |
| `WorkQueueConditional.ConditionalIsMeant` | src/common/cloud_work_queue.cpp:480-521 | Enqueueing a conditional upload leaves what carrying out all items in the order enqueued would leave exactly if it is a repetition and something will be there, or no upload is queued, or the queued one has the same bytes, or is unconditional with no delete behind it, or is conditional with a delete behind it or something there before it. |
| `WorkQueueConditional.LineOfConditionals` | src/common/cloud_work_queue.cpp:353-361 | Conditional uploads alone leave what is there, or the content of the first of them. |
| `WorkQueueMeaning.PassesIff` | src/common/cloud_work_queue.cpp:353-361 | A change of what the provider holds shows behind the queue exactly if nothing queued for the path is unconditional and the first item does not make up for it. |
| `WorkQueueMeaning.EnqueueMeans` | src/common/cloud_work_queue.cpp:475-523 | An enqueue adds the item to what the queue stands for exactly in the cases named, conditional uploads included. |
| `WorkQueueMeaning.PickMeans` | src/common/cloud_work_queue.cpp:292-307 | A pick changes it exactly if it takes an item past an earlier one and the rest then leaves something else. |
| `WorkQueueMeaning.ActMeans` | src/common/cloud_work_queue.cpp:351-436 | A provider call changes it exactly if what is there afterwards, a retry to come included, is not what the item asks for and the queue does not make up for it: a final failure, a fault, or a wrong answer whether something is there. |
| `WorkQueueMeaning.RequeueMeans` | src/common/cloud_work_queue.cpp:525-558 | A retry changes it exactly if it is dropped for a queued upload that does not make up for it, or goes behind work it does not commute with. |
| `WorkQueueMeaning.DrainMeans` | src/common/cloud_work_queue.cpp:215-257 | A drain changes it exactly if it requeues the failed item of the path and that changes what is left at the end of the line. |
| `WorkQueueMeaning.StepMeans` | src/common/cloud_work_queue.cpp:215-558 | Every step keeps what held and queued work stands for, an enqueue adding to it, exactly if it is none of the cases named. |
| `WorkQueueMeaning.QueueIsTransparent` | src/common/cloud_work_queue.cpp:215-558 | In every run without those, with uploads, conditional uploads and deletes: once the path is quiet the provider holds what carrying out everything enqueued for it, one after the other, leaves. |
| `WorkQueueMeaning.TransparentFromTheStart` | src/common/cloud_work_queue.cpp:215-558 | The same from the initial state for any cloud contents. |
| `WorkQueueContent.StaysSafe` | src/common/cloud_work_queue.cpp:215-558 | On a path whose uploads all carry the same bytes, conditional or not, nothing else turns up, and the bytes are there, on their way or on record as failed, until exactly one of three things: a provider call ends without effect, a worker has no provider, or a drain drops the record, with nothing else at hand. |
| `WorkQueueContent.ContentArrives` | src/common/cloud_work_queue.cpp:215-558 | From the start, in every such run: the provider never holds anything else, and once the path is quiet it holds the bytes, or their failure is on record, or they were given up. |
| `BlobGc.ReferencedKept` | src/common/cloud_storage.cpp:2025-2175 | For any listing, even a stale one, and any provider answers, no hash-addressed blob whose hash cloud state or manifest refers to is removed, and it keeps a sound content. |
| `BlobGc.MatchingCopyKept` | src/common/cloud_storage.cpp:2109-2148 | A pre-CAS copy matching what its name stands for goes away only when the canonical path holds bytes with that hash; the listing may be out of date, except that it must not name the canonical path if no blob with the hash is there. |
| `BlobGc.MatchingCopyKeptIff` | src/common/cloud_storage.cpp:2109-2148 | If every provider call succeeds the copy is kept exactly under that condition. |
| `BlobGc.StaleListingLoses` | src/common/cloud_storage.cpp:1998-2009 | The condition can fail: a cached listing that still names a removed canonical blob costs the only matching copy. |
| `BlobGc.AgreedCopyKept` | src/common/cloud_storage.cpp:2036-2051 | Where cloud state and manifest agree, the bytes the cloud state stands for are kept, under the same condition on the listing. |
| `BlobGc.DisagreementLoses` | src/common/cloud_storage.cpp:2036-2051 | Where they disagree the manifest wins, and the only copy of what the cloud state stands for is removed. |
| `BlobGc.ContentKeptIff` | src/common/cloud_storage.cpp:2082-2148 | An undisturbed collection over a complete listing keeps a content exactly if some blob with it is referenced, or promotable and what its name stands for. |
| `BlobGc.CloudCopyKeptIff` | src/common/cloud_storage.cpp:2036-2051 | The bytes the cloud state stands for survive such a collection exactly if the manifest does not overrule it for that name, or another blob with the hash stays. |
| `BlobGc.SecondCollectionIdle` | src/common/cloud_storage.cpp:2025-2175 | If every provider call succeeds, a second collection on the unchanged state removes and promotes nothing. |
| `BlobGc.PromoteKeys` | src/common/cloud_storage.cpp:2121-2148 | With every call succeeding, promotion leaves only paths that were there or canonical paths of promoted copies, and none of the copies it was to move. |
| `BlobGc.LeftIsReferenced` | src/common/cloud_storage.cpp:2082-2119 | What an undisturbed collection over a complete listing leaves is referenced and hash-addressed. |
| `CloudStore.Store.UploadBlob` | src/common/cloud_storage.cpp:1792-1804 | An upload under the content's hash keeps every hash present and the store sound; on success the hash has a blob. |
| `CloudStore.Store.VerifyEntry` | src/common/cloud_storage.cpp:1701-1737 | An entry is kept exactly when it is confirmed, listed, or healed from a matching local copy; a kept entry has a blob or is trusted as durable. |
| `CloudStore.Store.VerifyAndHeal` | src/common/cloud_storage.cpp:1632-1746 | What is kept is exactly the entries that pass, unchanged; all have blobs exactly if those accepted as durable did before; with everything confirmed nothing is touched. |
| `CloudStore.Store.WriteState` | src/common/app_state.cpp:589-630 | The change number never goes back; state and number are written only when not older than the fetched state; cn.cloudredirect is never above the state file. |
| `CloudStore.Store.Publish` | src/common/app_state.cpp:570-639 | The published change number never decreases; after a success every published entry has a blob exactly if those did before that are accepted because their hash is trusted as durable; exactly when a lock-only publish succeeds. |
| `CloudStore.Store.SetSession` | src/common/app_state.cpp:641-666 | Releasing the session changes neither files nor change number. |
| `CloudStore.Store.Promote` | src/common/cloud_storage.cpp:1748-1826 | It succeeds exactly when drained, all files are readable and unreserved and all uploads succeed; then every uploaded hash has a blob and counts as durable, and the listing cache is dropped. |
| `CloudStore.Store.UploadBatch` | src/common/cloud_storage.cpp:1802-1813 | The batch succeeds exactly when each upload does. |
| `CloudStore.Store.CollectGarbage` | src/common/cloud_storage.cpp:1985-2176 | Published entries keep their blobs, referenced durable hashes too; the blobs left are exactly those of the specified collection; it refuses without a complete listing or state. |
| `CloudStore.TakeStep` | src/common/app_state.cpp:570-666 | Each operation keeps the store invariant, every published entry backed and the change number from falling; only a collection finding a durable hash unreferenced can invalidate it. (Also cloud_storage.cpp 1632-1826 and 1985-2176.) |
| `CloudStore.RunSteps` | src/common/app_state.cpp:570-666 | In every run of promotes, publishes, session releases and collections the change number never decreases, cn.cloudredirect stays at or below the state file, and every published entry has a blob until a durable hash is removed. (Also cloud_storage.cpp 1632-1826 and 1985-2176.) |
| `CloudStore.DurableHashTrusted` | src/common/cloud_storage.cpp:1705-1706 | That condition can fail: a hash collected after it was recorded as durable is published without a blob. |
| `PromoteRollback.LocalStorage.PromoteStaged` | src/common/cloud_storage.cpp:2817-2875 | All staged blobs are in place and the number is set, or every file and the number are as before, given the restores succeed, even when a name repeats; at every moment the number on disk equals the cloud's only if all blobs are in place. |
| `PromoteRollback.LocalStorage.PromoteOne` | src/common/cloud_storage.cpp:2825-2859 | One promotion writes the blob and keeps a copy of what it replaces; a failure writes nothing. |
| `PromoteRollback.LocalStorage.RollBack` | src/common/cloud_storage.cpp:2860-2867 | Undoing in reverse order gives back the original files if every restore succeeds. |
| `PromoteRollback.LocalStorage.RestoreFileIfUnchanged` | src/common/local_storage.cpp:1241-1293 | Restores only while the file still has the promoted content. |
| `PromoteRollback.LocalStorage.SetChangeNumber` | src/common/local_storage.cpp:842-859 | The number is set, or left as it was when saving fails. |
| `PromoteRollback.PutAllIsLast` | src/common/cloud_storage.cpp:2825-2859 | With a repeated name the last blob staged under it stays. |
| `PromoteRollback.Undo` | src/common/local_storage.cpp:1241-1293 | Writing a file and putting back what it replaced changes nothing. (Used by the rollback at cloud_storage.cpp 2860-2867.) |
| `BatchMerge.Tracker.RecordUpload` | src/common/batch_tracker.cpp:44-55 | An upload of a name replaces what was recorded for it, and only in an active batch. |
| `BatchMerge.Tracker.RecordDelete` | src/common/batch_tracker.cpp:57-65 | A delete of a name replaces an upload of it, and only in an active batch. |
| `BatchMerge.Tracker.Get` | src/common/batch_tracker.cpp:67-80 | The active batch, or an empty one for another id. |
| `BatchMerge.Merge` | src/common/batch_merge.cpp:6-37 | The three loops produce the merged map, name by name, reserved uploads skipped. |
| `BatchMerge.MergedUnique` | src/common/batch_merge.cpp:6-37 | That description determines the map. |
| `BatchMerge.Collapsed` | src/common/batch_tracker.cpp:44-65 | What the collapsed batch says about a name is what its operations, in order, amount to. |
| `BatchMerge.MergedIsReplay` | src/common/batch_merge.cpp:6-37 | Collapsing any sequence of uploads and deletes and merging it gives, at every name that is not reserved, what replaying them one by one over the base gives; a reserved name goes if it was deleted last and otherwise stays as in the base. (Also batch_tracker.cpp 25-89.) |
| `BatchMerge.MergedIsExactly` | src/common/batch_merge.cpp:6-37 | With no upload of a reserved name the whole map is that of the replay. |
| `BatchMerge.Disjoint` | src/common/batch_tracker.cpp:44-65 | No name is both uploaded and deleted in the collapsed batch. |
| `BatchMerge.OrderIrrelevant` | src/common/batch_merge.cpp:20-35 | The order of both lists does not matter. |
| `BatchMerge.MergeTwice` | src/common/batch_merge.cpp:6-37 | Merging the same batch into its result changes nothing. |
| `ManifestDelta.ManifestStore.SaveSnapshot` | src/common/manifest_store.cpp:622-643 | A snapshot is stored and the one a hundred numbers earlier is dropped; a failed write drops nothing. |
| `ManifestDelta.ManifestStore.SaveConsecutive` | src/common/manifest_store.cpp:622-643 | Consecutive saves into any store: the last hundred of them are there, the number a hundred below each is gone, every other snapshot is as it was. |
| `ManifestDelta.ManifestStore.ComputeDelta` | src/common/manifest_store.cpp:651-726 | When the client is behind and its snapshot exists, applying the delta to it gives the current names and hashes exactly when the current manifest is not empty or the snapshot has no names; no change is repeated or unneeded; all other cases as documented. |
| `ManifestDelta.DeltaReachesCurrent` | src/common/manifest_store.cpp:699-723 | Any complete list of needed changes, in any order, takes the baseline to the current names and hashes. |
| `ManifestDelta.DeltasCompose` | src/common/manifest_store.cpp:651-726 | Deltas along successive change numbers compose to the direct one. |
| `JsonRoundTrip.RoundTrip` | src/common/json.cpp:35-299 | Parsing the printed text gives the value back, for arbitrary byte strings, integers up to 10^15 and any member order, chosen anew for every object printed, up to 64 nested containers. |
| `JsonRoundTrip.RoundTripIff` | src/common/json.cpp:170-293 | It comes back exactly when it nests at most 64 containers deep. |
| `JsonRoundTrip.StringRead` | src/common/json.cpp:70-131 | Escaping and unescaping are inverse on every byte string. (The escaping is at 220-245.) |
| `JsonRoundTrip.NumberRead` | src/common/json.cpp:133-150 | A printed integer is read back as itself. |
| `JsonRoundTrip.ParsedDepth` | src/common/json.cpp:170-212 | The parser never builds a value deeper than its limit. |
| `JsonParser.Parser.SkipBlank` | src/common/json.cpp:42-53 | The loop skips exactly blanks and line comments. |
| `JsonParser.Parser.ReadString` | src/common/json.cpp:70-131 | The loop collects exactly the unescaped characters and stops behind the closing quote. |
| `JsonParser.Parser.ReadNumber` | src/common/json.cpp:133-150 | The loops cover exactly one number. |
| `JsonParser.Parser.ReadValue` | src/common/json.cpp:58-68 | Position, nesting depth and value after reading are those of the grammar, for any text. |
| `JsonParser.Parser.ReadArray` | src/common/json.cpp:170-187 | The loop reads the items up to the first that is not followed by a comma. |
| `JsonParser.Parser.ReadObject` | src/common/json.cpp:189-213 | The loop reads the members, the last of a repeated name winning. |
| `JsonParser.PrintInto` | src/common/json.cpp:247-293 | The printer appends exactly the text of the value. |
| `JsonParser.EscapeInto` | src/common/json.cpp:220-245 | The loop appends exactly the quoted text. |
| `JsonParser.DeepEqualIsEqual` | src/common/json.cpp:317-340 | Comparing sizes and walking one side's members decides equality of values. |
| `StateCodec.ShaRoundTrip` | src/common/app_state.cpp:172-195 | A hash of up to 20 bytes survives the hex form, a longer one is lost. |
| `AppState.WriteSha` | src/common/app_state.cpp:172-181 | The loop writes two lower-case digits per byte. |
| `AppState.ReadSha` | src/common/app_state.cpp:183-195 | The loop scans every second position; more than 40 characters give nothing. |
| `AppState.SerializeState` | src/common/app_state.cpp:197-252 | The maps and arrays filled step by step are printed as the value of the state. |
| `AppState.ReadEntries` | src/common/app_state.cpp:296-316 | The loop over the files, refused at the first name beyond 100000 entries. |
| `AppState.DeserializeState` | src/common/app_state.cpp:254-319 | Exactly when the text is a state, and which; after a refusal no files are left. |
| `StateRoundTrip.FileBack` | src/common/app_state.cpp:231-248 | One file entry comes back, less a hash of more than 20 bytes. |
| `StateRoundTrip.FilesBack` | src/common/app_state.cpp:231-250 | All files come back without reserved names, or are refused when more than 100000. |
| `StateRoundTrip.SessionBack` | src/common/app_state.cpp:214-222 | A session comes back, with client ids up to 2^64-1 kept as text. |
| `StateRoundTrip.RoundTrip` | src/common/app_state.cpp:197-319 | Reading what was written gives the state less reserved names, inactive sessions, empty quotas and over-long hashes, or is refused exactly when more than 100000 files are left, whatever order the maps iterate in. |
| `StateRoundTrip.ComesBack` | src/common/app_state.cpp:197-319 | A state comes back unchanged exactly when nothing is left out of it and it has at most 100000 files. |

## Left out

- Deflater.Compressor.Compress: the form with a caller-supplied output buffer (`pOut_buf`) is not modelled, only the one with an output function, and null-pointer argument checks are not; `tdefl_compress_fast` and the unaligned variants are not compiled in this configuration.
- Deflater.Compressor.WriteOut: the block index is an unbounded number, so the wrap of `m_block_index` after 2^32 blocks, which would repeat the zlib header, is not modelled.
- Deflater.CompressMemToOutput: allocation failure is left out, and the output function's answers are a fixed function of how many calls came before.
- Adler32.Checksum: a null data pointer, which returns 1 whatever the seed, is not modelled.
- HuffmanTable.OptimizeTable: code lengths and codes are kept as natural numbers with proved bounds instead of 8- and 16-bit fields.
- LzAlphabet.LenRoundTrip: the constant length and distance symbol tables appear in closed form.
- Window.Window.FindMatch: which match is found depends on the hash chains, whose contents are arbitrary here; that a longest match is found is not claimed, and not true of the code.
- WorkQueue.Queue.PickWork: time is the set of items that are due; back-off delays, the circuit breaker, error dialogs and condition variables are left out.
- WorkQueue.Queue.DrainQueueForApp: the deadline is a number of polls, each with arbitrary interference from other threads.
- WorkQueueLastWriter.LastWriterWins: it, StaysOnTrack and EnqueueTracks speak of unconditional uploads and deletes for the path, and count a failure on record as kept; WorkQueueMeaning covers conditional uploads, and counts it as lost.
- CloudStore.Store.VerifyAndHeal: the account-scope app, shutdown and being signed out, where the state is returned unverified, are left out.
- CloudStore.RunSteps: stores with pre-CAS filename blobs are excluded, because such a blob counts as present by name alone (cloud_storage.cpp:1708-1711); garbage collection treats them in BlobGc.
- CloudStore.Store.Publish: check and upload are one step, as under the per-app mutex and the session lock; legacy migration and the serve cache are left out.
- BlobGc.ReferencedKept: the hash is an arbitrary function into 40 hex digits; nothing needs it to be injective.
- PromoteRollback.LocalStorage.PromoteStaged: files written by others in between, path validation, the download workers and the manifest snapshot saved afterwards are left out; a write succeeds or changes nothing.
- BatchMerge.Tracker.Begin: assigned change number, build id and declared counts are not kept.
- ManifestDelta.ManifestStore.ComputeDelta: manifests are maps, not JSON files; a corrupt snapshot is one that cannot be read and is shorter than two bytes.
- Json.ParseNumber: a number with a fraction or an exponent is kept as its text instead of being converted to a double, and integers beyond 10^15 are not rounded as a double would be; the round trips are stated for integers up to 10^15.
- JsonParser.DeepEqualIsEqual: numbers kept as text are compared as text.
- StateCodec.ReadState: reading a fractional number where an integer is expected gives 0 instead of its integer part.
- StateCodec.HexToSha: the characters 0x with no digit behind them scan as no byte; C libraries differ there.
- StateRoundTrip.RoundTrip: stated for numbers up to 10^15, the range a double and the printer keep exactly, and for client ids up to 2^64-1.
- Fetching and migrating state, the manifest published beside it, and the queue of deferred publishes: input and output around the parts modelled.
- Provider clients, HTTP, sign-in, file-system walking, AutoCloud scanning, the installer and the user interface: input and output.
- SHA-1, FNV fingerprints and CRC tables: uninterpreted functions where they matter.
- The inflate side of miniz, ZIP and PNG helpers: not part of this model; the decoder here is written from the RFCs, and takes from it only the rule which code lengths to refuse.
