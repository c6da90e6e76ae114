# Two models of this kernel: the DEFLATE compressor and the copy-on-write disk

**DEFLATE.** The compressor under `compression/` is modelled as the code has it: classes with the source's
fields and arrays, methods with the source's loops and branches. The specification stands on its own: the
modules `Inflate` and `HuffmanCode` are a decoder for RFC 1951 (sections 3.2.2 to 3.2.7) over bit sequences, `ZlibStream`
adds the frame of RFC 1950 (sections 2.2 and 9). The two meet in `Stream.Run`: for every configuration,
every way of splitting the input and the output space over calls and every flush value, the call that
reports `Z_STREAM_END` has delivered bytes that this decoder turns into exactly the input.
`Stream.DeflateCall` adds what each single call promises, partial, sync and full flushes included, and exactly when it
refuses. Behind a full flush the bytes decode on their own, with no history. What is sent is pinned down as well: the
tokens are the parse the searches decide on, each search takes the nearest of the longest matches it visits, and
where the length limit allows it the codes cost least and, of all that do, have the shortest longest codeword. The
output space is accounted for byte by byte, so from the first finishing call on a run either ends the stream or fills
all the space it is given.

- Trees: `TreeHeap`, `TreeOrder`, `TreeLengths`, `TreeDepth`, `TreeHeights` (the heap, the list in order of frequency and
  height, lengths, depths and heights of a tree), `BitLengths`, `LengthLimit`, `GenBitlen` (the passes of `gen_bitlen`),
  `OptimalCodes` (Huffman's theorem), `LowestCodes` (what the tie breaker of the heap achieves), `CanonicalCodes`, `GenCodes`,
  `BuildTree`.
- Blocks: `BitWriter` (the 16-bit buffer), `StaticTables`, `Tallies`, `CodeLengths`, `RunCuts`, `Tokens`,
  `BlockSizes`, `DynHeader`, `MoreHistory`, `BlockFormat`, `Blocks`, `BlockTrees`, `FlushBlock`.
- Matching: `RollingHash`, `HashChains`, `LongestMatch`, `LazyParse` (which tokens a record of searches stands for),
  `Lz77`, `Deflate` (the state), `FillWindow`, `LazyMatch`, `DeflateSlow`, `DeflateFast`, `Checksum`.
- The stream: `Resume` (decoding from a full flush on), `ZlibStream`, `Stream`.

`w_size`, `hash_bits`, `hash_shift` and `lit_bufsize` are parameters tied as in `deflateInit2_`. Ghost fields
hold the bits sent so far, the input read so far, the input position of the window's first byte, the places where
decoding can start, every search made with what it saw and found, and the sizes of the blocks flushed.
16- and 32-bit quantities are shown to stay in range where the source relies on it.

**Copy-on-write disk.** `filesystems/cow.c` keeps redo logs: a root table and leaf blocks that map grains of
a virtual disk to sectors of a file. A file is a map from 32-bit word addresses to words, so blocks that
overlapped would overwrite each other. `CowState` gives each asynchronous step as a function on the whole state (file, cache,
queues, commands); words of data and metadata writes reach the file one at a time in any order, as
separate steps. `RedoLog.Log` is the imperative form: fields updated in place, the loops of the cache
lookup, of the metadata lists and of the queues, each method proved equal to its step. `CowInvariant` is
what every step keeps (`CowAdd`, `CowLeaf`, `CowLand`, `CowDone`, with `CowFrame` for writes elsewhere);
`CowRun` and `CowCrash` read the theorems off it: last completed write, queue order, allocation, pins,
crash images; `CowGrow` says by how much the file grows over a run, `CowRecency` which slots of the cache are reused.
`CowCheck` recomputes the free sector and reopens a log after a crash; `CowStack` resolves reads through a
stack of logs; `CowCommit` copies log 1 into a flat base; `ScatterGather` splits and merges read requests, and `CowRead`
follows a read from the request to the bytes in memory.

The assumptions on callers are these, and are the conditions under which a step is enabled: writes cover whole grains, all
levels use one granularity, no grain is named by two commands in flight, preparing a grain is not
interleaved with another preparation, some cache slot is unpinned or holds the block looked for, a request
sets at most 255 entries of one leaf block (the count is a `uint8`), and sector numbers stay below
`COW_NULL_SECTOR_NO`.

Where the code and its comments differ, the model follows the code:
- `build_tree` says that a forced dummy symbol is 0 or 1; with only symbol 1 in use it is still 0, but the
  loop condition `max_code < 2` lets it be 2 (compression/trees.c:657-663). No extra bits arise either way.
- `tr_static_init` computes `base_length` for all codes but the last; that entry is never used, since code
  28 has no extra bits (compression/trees.c:266-280).
- `COWCheck` promises the first free sector; without any root entry it answers 0 (filesystems/cow.c:2883-2931).
  `CowCheck.CheckBeyond` states exactly when the answer is right.

## Model

| member | source | states |
|---|---|---|
| TreeHeap.PqDownHeap | compression/trees.c:452-485 | Rearranges the queue and nothing else, and extends the heap order (frequency, then depth) from k + 1 down to k |
| TreeHeap.PqRemove | compression/trees.c:437-446 | Takes out the node of least frequency, the lowest of several; what is left is a heap of the other nodes, and its front is the next one in that order |
| TreeOrder.StepKeeps | compression/trees.c:675-696 | One merge of the two first nodes keeps the list sorted by frequency and, among equal ones, by height, every son listed before its father and every father one higher than its taller son |
| TreeOrder.LastIsRoot | compression/trees.c:696-698 | When one node is left it is the root, and listing it completes a tree over all symbols in use |
| TreeLengths.TreeKraft | compression/trees.c:514-537 | The Kraft sum of the lengths cut off at the limit is 1 plus one unit for every father at the limit |
| TreeLengths.LeafCount | compression/trees.c:514-537 | Exactly the symbols in use get a length |
| TreeLengths.TreeOptimal | compression/trees.c:514-537 | With no overflow, no lengths within the Kraft inequality cost less than the tree's |
| OptimalCodes.HuffmanOptimal | compression/trees.c:675-696 | Huffman's theorem: repeatedly merging the two lightest costs no more than any lengths within the Kraft inequality |
| OptimalCodes.HuffmanOptimalPrefixCode | compression/trees.c:675-696 | In particular no more than any binary prefix code on the same frequencies |
| LowestCodes.LowestHeight | compression/trees.c:444-446 | Merging the lowest of equally light nodes first: whenever some lengths of least cost have no codeword beyond b, what the merges leave is no higher than b |
| TreeHeights.HeightBound | compression/trees.c:684 | A node of 16-bit weight is lower than 23, so the cast of depth to 8 bits loses nothing |
| TreeHeights.DeepHeight | compression/trees.c:683-685 | The height of the root is the depth of the deepest leaf |
| TreeHeights.Shallowest | compression/trees.c:675-696 | The finished tree is as shallow as any lengths of least cost can be |
| LengthLimit.MoveLeaf | compression/trees.c:544-552 | One round of the repair keeps the number of codes and the counts in range and takes exactly one unit off the Kraft excess |
| LengthLimit.RepairCounts | compression/trees.c:543-553 | The repair ends, never takes a count below 0, keeps the number of codes and leaves a Kraft sum of exactly 1; shorter codes become longer only when those longer ones below the limit have given way |
| LengthLimit.FrugalUnique | compression/trees.c:543-553 | There is only one way to do that: no other counts with the same number of codes and Kraft sum come from the same ones with the longest giving way first |
| GenBitlen.Reassigned | compression/trees.c:555-573 | The reassignment gives the repaired counts, a complete code, rarer symbols never shorter, and the right opt_len |
| GenBitlen.GenBitlen | compression/trees.c:497-574 | The lengths are complete and within the limit, rarer never shorter; limited if and only if the uncut tree has a leaf deeper than the limit: otherwise the lengths are its depths and optimal, and if so their numbers come from the depths cut off, the longest codes giving way first; opt_len and static_len grow by the exact bits, extra bits included |
| CanonicalCodes.CodeFits | compression/trees.c:597-604 | The codes of each length fit their length |
| CanonicalCodes.PrefixFree | compression/trees.c:584-616 | No codeword is a prefix of another |
| CanonicalCodes.CompleteDecodes | compression/trees.c:600-604 | With Kraft sum 1 every long enough bit string starts with a codeword |
| CanonicalCodes.ReadsSymbol | compression/trees.c:584-616 | Reading a codeword most significant bit first gives back its symbol and the bits behind it |
| GenCodes.BiReverse | compression/trees.c:1147-1157 | Sent least significant bit first, the result is the code most significant bit first |
| GenCodes.GenCodes | compression/trees.c:584-616 | Every symbol gets its code of RFC 1951 section 3.2.2, reversed; counters stay within 16 bits |
| BuildTree.BuildTree | compression/trees.c:626-707 | From frequencies to codes: a complete code for the symbols in use and those forced, optimal unless limited; it is limited if and only if every code of least cost has a codeword beyond the limit, which never happens while the total frequency is less than the Fibonacci number of the limit plus 3; and the exact change of opt_len and static_len with the dummy codes taken off |
| TreeDepth.OverflowDeep | compression/trees.c:519-537 | The overflow count is positive if and only if a leaf of the tree lies deeper than the limit |
| TreeDepth.DeepWeight | compression/trees.c:519-541 | A tree of merges with a leaf below the limit has a total frequency of at least the Fibonacci number of the limit plus 3 |
| BitWriter.OrDisjoint | compression/trees.c:220-222 | Bits or-ed in above the valid ones add to them |
| BitWriter.Output.SendBits | compression/trees.c:217-229 | Appends exactly the value's bits, least significant first, whether or not the 16-bit buffer overflows |
| BitWriter.Output.BiFlush | compression/trees.c:1162-1174 | Moves whole bytes out of the buffer without changing the bits sent |
| BitWriter.Output.BiWindup | compression/trees.c:1179-1192 | Pads with zeros to the next byte, and no further |
| BitWriter.Output.FlushPending | compression/deflate.c:416-433 | Moves pending bytes to the output once and in order, until either runs out |
| StaticTables.InitLengths | compression/trees.c:266-280 | Every match length is in the range RFC 1951 section 3.2.5 gives its code |
| StaticTables.InitFarDists | compression/trees.c:291-298 | Every distance beyond 256, looked up by its upper bits, is in the range of its code |
| StaticTables.FixedComplete | compression/trees.c:300-311 | The fixed codes of section 3.2.6 are complete |
| StaticTables.InitLtree | compression/trees.c:300-311 | The literal table holds the fixed lengths and their reversed codewords |
| StaticTables.InitDtree | compression/trees.c:313-317 | The distance table holds the fixed five-bit codewords |
| CodeLengths.TreeCodesExpand | compression/trees.c:713-803 | The run-length symbols expand under section 3.2.7 to exactly the length array |
| RunCuts.TreeCodesCut | compression/trees.c:713-803 | They are exactly the symbols of a rule that follows no loop: every repeat takes what is left of its run up to the maximum of its symbol (6, 10, 138), and no length is sent by itself where a repeat would do |
| CodeLengths.ScanTree | compression/trees.c:713-752 | Counts every run-length symbol exactly as often as send_tree sends it, and sets the guard behind the last length |
| CodeLengths.SendTree | compression/trees.c:758-803 | Sends exactly those symbols with their extra bits |
| CodeLengths.ClDecodes | compression/trees.c:758-803 | The decoder of section 3.2.7 reads back the lengths those bits stand for |
| BlockTrees.LowSymbol | compression/trees.c:824-830 | Some symbol other than a repeat is always sent, so at least four code length codes are |
| BlockTrees.BuildBlTree | compression/trees.c:809-837 | The code length code covers both trees, nothing needed is left out and no shorter list of code length codes would do, and opt_len grows by the exact size of the header |
| DynHeader.OrderRoundTrip | compression/trees.c:857-860 | The lengths sent in bl_order and cut off are put back in place by the decoder |
| DynHeader.HeaderDecodes | compression/trees.c:844-868 | A dynamic header decodes to the two trees and leaves the data that follows |
| FlushBlock.SendAllTrees | compression/trees.c:844-868 | Sends exactly that header |
| Tokens.TokensDecode | compression/trees.c:1084-1116 | The bits of any token list decode to the text the tokens stand for |
| FlushBlock.SendToken | compression/trees.c:1086-1112 | Sends the codewords and extra bits of one literal or match |
| FlushBlock.CompressBlock | compression/trees.c:1077-1122 | Sends the tokens of the block and its end |
| BlockSizes.DataSize | compression/trees.c:626-707 | The sizes the two tree constructions predict are the exact numbers of bits the tokens take, dynamic and static |
| BlockFormat.DynBlock | compression/trees.c:998-1002 | A dynamic block decodes to the text before it and that of its tokens |
| BlockFormat.StaticBlock | compression/trees.c:991-994 | So does a static block |
| BlockFormat.StoredBlock | compression/trees.c:873-885 | A stored block decodes to its bytes, whatever the position in the byte it starts at |
| BlockFormat.OpenNext | compression/trees.c:927-1021 | Blocks that decode one after the other decode together, and the final one ends the stream |
| MoreHistory.BlockAfter | compression/deflate.c:540-544 | A block that decodes after some text decodes the same way after more text, from any byte boundary |
| BlockFormat.OpenJoin | compression/trees.c:927-1021 | Blocks written with no history, put behind other blocks at a byte boundary, decode to the text of both |
| FlushBlock.CopyBlock | compression/trees.c:1198-1220 | Padding, length and complement, then the bytes |
| FlushBlock.Align | compression/trees.c:898-921 | One empty static block, and a second one exactly when the first would leave the decoder fewer than nine bits of lookahead; at most 7 bits stay in the buffer |
| FlushBlock.FlushBlock | compression/trees.c:927-1021 | Compares sizes in bytes that are those of the dynamic and the static block themselves, sends the encoding chosen, which decodes to the text of the tokens, and pads the last block to a byte |
| FlushBlock.NearlySmallest | compression/trees.c:941-991 | A coded block takes no more bytes than the other coded one and fewer bits than the stored one; a stored block exceeds a coded one by at most 17 bits |
| Blocks.BlockState.TallyLit | compression/deflate.h:295-301 | The literal joins the buffered tokens and its frequency grows by one |
| Blocks.BlockState.TallyDist | compression/deflate.h:302-311 | So does a match, with its length and distance symbols |
| Checksum.NmaxFits | compression/adler32.c:11-12 | NMAX bytes without a reduction fit 32 bits and NMAX + 1 need not |
| Checksum.AdlerAppend | compression/adler32.c:32-46 | The checksum of two parts is that of the second started from the first |
| Checksum.Adler | compression/adler32.c:21-48 | Equals the byte-by-byte definition of RFC 1950 section 9 for any chunking, without 32-bit overflow |
| RollingHash.HashRolls | compression/deflate.c:156 | Updating the hash of three bytes with a fourth is the hash of the last three |
| RollingHash.ThirdByte | compression/deflate.c:820-827 | With equal hashes and two equal bytes the third is equal |
| HashChains.Inserted | compression/deflate.c:175-178 | INSERT_STRING keeps every chain: the link of a position within a window is to the last earlier string inserted with its hash, or NIL if there is none |
| HashChains.SlideKeeps | compression/deflate.c:985-1017 | Sliding the window and both tables keeps the chains of the strings that stay |
| HashChains.Dictionary.Insert | compression/deflate.c:175-178 | head and prev change at one entry each: the string heads its chain, the former head is returned and linked to, and is the last string with that hash; the hash stays primed |
| HashChains.Dictionary.Slide | compression/deflate.c:985-1017 | Every entry of both tables moves down by the window size or becomes NIL, and the chains of the strings that stay are kept |
| LongestMatch.Compare | compression/deflate.c:826-842 | Stops at the first difference from the third byte on, or at 258 |
| LongestMatch.ProbeFails | compression/deflate.c:815-818 | A failed probe of four bytes rules out a longer match |
| LongestMatch.ProbesPass | compression/deflate.c:815-842 | If the probes pass, the length found is the common prefix, though the third byte was never compared |
| LongestMatch.FindLongest | compression/deflate.c:726-862 | Equals brute force: the smaller of lookahead and the larger of prev_length and the best common prefix over the chain entries visited, found at the first entry visited that has it; over all strings inserted within the distance limit, if neither the chain length nor a nice match cut the search short; capped by lookahead even on a stale head |
| LongestMatch.StartNearest | compression/deflate.c:846 | The match returned is the nearest: no string inserted nearer matches as far |
| LongestMatch.WalkUnique | compression/deflate.c:855-859 | Links, limits and window determine the entries visited: a search goes on exactly until the chain ends, enough were visited or an improvement is good enough |
| LongestMatch.AllVisited | compression/deflate.c:811-859 | Followed to its end, the chain visits every string inserted within the distance limit that has the hash |
| FillWindow.Fill | compression/deflate.c:961-1049 | The window still holds the input at the same distances, tallied and held text stand, and there is enough lookahead or no input left |
| FillWindow.SlideWindow | compression/deflate.c:985-1017 | The slide renames positions only; match_start may become negative and still names the same input |
| Deflate.Deflater.ReadBuf | compression/deflate.c:662-682 | Moves input into the window and into the checksum, once and in order |
| Deflate.Deflater.constructor | compression/deflate.c:202-288 | A stream with the sizes deflateInit2_ derives, in which nothing is tallied, held or ahead |
| Lz77.CopyRepeats | compression/deflate.c:1297-1300 | Copying from where the text repeats, overlap included, reproduces the text |
| Lz77.TalliedMatch | compression/deflate.c:1293-1300 | Tallying the previous match keeps tokens, held literal and lookahead together equal to the input read |
| LazyMatch.FindMatch | compression/deflate.c:1264-1289 | Searches exactly under the guards; keeps what the search finds, except that lengths up to 5 under Z_FILTERED and length 3 further than TOO_FAR are dropped to 2 |
| LazyMatch.Seek | compression/deflate.c:1252-1289 | Each position is inserted and searched once; the search is recorded with the window, which goes back as far as matches may, the chains and the outcome it saw, and improves on the match found one position before |
| LazyParse.LiteralOnlyIfBeaten | compression/deflate.c:1293-1334 | Over a whole run: a token that starts where a match of three or more was found is that match, unless the search at the next position found a strictly longer one; a match token is exactly the match found there, and the next position found none longer |
| LazyParse.ParseUnique | compression/deflate.c:1293-1334 | The searches determine the tokens |
| LazyMatch.EmitMatch | compression/deflate.c:1293-1316 | The previous match is tallied when the present search found none longer, and every string it covers is inserted but those too close to the end of the input |
| DeflateSlow.Slow | compression/deflate.c:1235-1350 | The tokens tallied are the lazy parse of the input by the searches made, across slides, flushed blocks and resumptions, with held literal and lookahead making up the rest; no string is left out of the chains except the last two before a flush; a block ends only when the token buffer is full, nothing being pending then, and exactly once more when a flush is asked for; the result says what stopped it |
| DeflateFast.Fast | compression/deflate.c:1139-1228 | The same with the greedy parse: a match found is tallied at once; of the strings a match covers only those of matches longer than max_insert_length and those at the end of the input are left out |
| DeflateFast.TakeNow | compression/deflate.c:1181-1214 | The match found at the present position is tallied if it has three bytes, and otherwise the byte |
| ZlibStream.HeaderValueOk | compression/deflate.c:463-472 | The header has 16 bits, names the window size and the compression level (FLEVEL) and passes its check |
| ZlibStream.ZlibDecodes | compression/deflate.c:558-566 | Header with its level, complete data, padding and checksum decode to the text |
| Resume.ResumeJoin | compression/deflate.c:534-551 | If decoding can start at some marks, blocks written since the last one keep that so, for the text grown by theirs |
| Resume.EndsDecode | compression/deflate.c:540-544 | The bytes delivered from a mark to the end decode, with no history, to the text behind the mark |
| Stream.ClearHistory | compression/deflate.c:540-544 | Forgetting the hash table after a full flush starts a new input and a new mark: nothing is in the chains, and decoding can start there |
| Stream.SyncedAfter | compression/deflate.c:534-551 | Once everything is delivered behind the marker, the bytes decode, as far as they go, to all the input, and from every mark on to the input since |
| Stream.DeflateCall | compression/deflate.c:436-567 | Z_STREAM_ERROR and Z_BUF_ERROR are returned exactly under the guards on status, flush, input and output space; bytes delivered equal space used; Z_STREAM_END means everything was delivered, decodes to the input, and from every full flush on to the input after it; Z_OK that input or space is used up, with all input decodable after a sync or full flush, all bits of the last data block delivered after a partial one, and an empty history after a full one; a block ends only when full, and once in a call that flushes |
| Stream.Run | compression/deflate.c:436-567 | Over any run of calls, the stream that ends decodes to all the input offered, and the bytes behind every full flush that left space decode alone to the input offered after it; the header names the level; no more is delivered than the space given, and once finishing calls begin the run ends the stream or fills all their space |
| CowCache.VictimIs | filesystems/cow.c:3107-3133 | The slot reused is unpinned, the least recently touched of those and the first of them; there is none only if all are pinned |
| CowCache.LookedIs | filesystems/cow.c:3079-3156 | A lookup finds the block or replaces one unpinned slot, and a pinned slot keeps block, pins and contents |
| CowRecency.RunStamped | filesystems/cow.c:3104-3154 | Over every run the touch time of a slot is the number of the last lookup that used it, 0 if none did |
| CowRecency.LeastRecent | filesystems/cow.c:3107-3154 | After any run a block that is not cached takes the unpinned slot not looked up for the longest time; of those never looked up, the first |
| CowCommands.InsertIs | filesystems/cow.c:2560-2609 | One more entry to set and, for a new leaf block, one more slot held |
| CowCommands.UpdateCacheIs | filesystems/cow.c:2184-2206 | Exactly the entries a command names change, to the places it names |
| CowCommands.UnpinnedIs | filesystems/cow.c:1763-1777 | Each slot the command held is released once |
| CowLeaf.NewLeafInv | filesystems/cow.c:2423-2473 | Allocating, zeroing and linking a leaf block keeps the invariant and every grain's contents |
| CowAdd.EntryIsDisk | filesystems/cow.c:2485-2548 | The cached entry a write decides on is the one on disk |
| CowAdd.AddInv | filesystems/cow.c:2385-2554 | A grain joining a command keeps the invariant, placed anew or where it is |
| CowLand.LandDataInv | filesystems/cow.c:1479-1482 | Data reaching the disk word by word touches no other grain, leaf block or root entry |
| CowLand.LandMetaInv | filesystems/cow.c:2084-2126 | So does metadata: a word changes nothing or sets one entry, to a grain whose data is written |
| CowDone.DataDoneInv | filesystems/cow.c:1876-1957 | A finished data write queues its command, and starts its metadata write if active was empty |
| CowDone.MetaDoneInv | filesystems/cow.c:1995-2037 | A finished metadata write completes the oldest queued command and starts the next |
| CowRun.StepInv | filesystems/cow.c:1876-2206 | Every step of the protocol keeps the invariant |
| CowRun.RunInv | filesystems/cow.c:1876-2206 | So does every run |
| CowRun.Contents | filesystems/cow.c:2290-2365 | Refinement, read off RunInv: a grain that no issued command is writing resolves to the last completed write to it, or its first contents |
| CowRun.ReadIsLastWrite | filesystems/cow.c:2290-2365 | The same for the entry a read finds through the cache |
| CowRun.Quiet | filesystems/cow.c:2290-2365 | Corollary of RunInv: once all commands are complete this holds for every grain |
| CowRun.QueueProtocol | filesystems/cow.c:628-746 | At most one metadata write is in progress and it is the head of active; active empty means ready empty; the queues hold exactly the commands whose data write finished, each once, in that order |
| CowRun.FirstQueuedFirstDone | filesystems/cow.c:2153-2178 | Commands complete in the order their data writes finished |
| CowRun.Allocated | filesystems/cow.c:2630-2658 | Leaf blocks and grains handed out are disjoint and below freeSector, and everything written or referred to is one of them |
| CowGrow.RunCompact | filesystems/cow.c:2630-2658 | Over every run, the sectors handed out are exactly those between the first and the present free sector, and the file is its first length plus as few increments as cover them |
| CowRun.NeverEvicted | filesystems/cow.c:3123-3136 | A slot a command holds survives every lookup with its block and contents |
| CowRun.UnpinnedIsDisk | filesystems/cow.c:3136-3154 | What an unpinned slot shows is what is on disk |
| CowCrash.CrashSafe | filesystems/cow.c:2426-2473 | Whatever part of whatever step is on disk, root entries name wholly written leaf blocks, leaf entries name grains whose data write finished, and no completed write is lost |
| CowCrash.SoundEntry | filesystems/cow.c:2869-2932 | The same entry by entry, with every place below the free sector |
| CowCrash.AllOrNothing | filesystems/cow.c:1912-1953 | A grain being given a place is on disk wholly or not at all |
| CowCheck.Check | filesystems/cow.c:2869-2932 | The result is the last sector past anything referred to, unset leaf entries counting as sector 0, and 0 if there is no root entry |
| CowCheck.CheckBeyond | filesystems/cow.c:2893-2931 | It lies beyond the root table and everything referred to if and only if there is a root entry |
| CowCheck.Recovered | filesystems/cow.c:892-950 | After a crash in any step with a root entry on disk, the log reopened with that free sector satisfies the invariant and holds every completed write |
| CowCheck.FreshInv | filesystems/cow.c:832-966 | An empty log satisfies the invariant |
| RedoLog.Log.CacheLookup | filesystems/cow.c:3079-3156 | The loop with its early exit and its running minimum does the lookup step |
| RedoLog.Log.IncrementFreeSector | filesystems/cow.c:2630-2658 | Sectors are handed out in order; the file grows by COWDISK_SIZE_INCREMENT only when they reach its end, so its length stays the one its first length and the free sector determine |
| RedoLog.Log.WriteGetLBNAndMDB | filesystems/cow.c:2385-2554 | Does the step that adds a grain, and returns the place its data goes to |
| RedoLog.Log.InsertMetaDataList | filesystems/cow.c:2560-2609 | The walk over the list does the insertion |
| RedoLog.Log.UpdateCache | filesystems/cow.c:2184-2206 | The two loops set the command's entries |
| RedoLog.Log.AsyncWriteDone | filesystems/cow.c:1876-1957 | Queueing, moving ready up and walking active do the step of a finished data write |
| RedoLog.Log.AsyncMetaDataWriteDone | filesystems/cow.c:1995-2037 | Completion, moving ready up and starting the head do the step of a finished metadata write |
| RedoLog.Log.CompleteCommand | filesystems/cow.c:2153-2178 | The command leaves active and releases its slots |
| RedoLog.Log.Execute | filesystems/cow.c:1876-2206 | Any run of the imperative log is a run of the steps, keeps the invariant, refines the last-completed-write map, and lengthens the file only as far as what it hands out needs |
| CowStack.ReadGetLBNAndFID | filesystems/cow.c:2290-2365 | Finds the topmost level that has the grain, else the base, or fails past a root table; contents and invariants of all levels stay |
| CowStack.ReadIsLayered | filesystems/cow.c:2307-2363 | What is read there is the last write of the topmost level that has one, over the base |
| CowStack.PastTable | filesystems/cow.c:2320-2324 | The failing branch of Locate: a sector past a level's root table fails once the search gets there |
| CowCommit.RunHarmless | filesystems/cow.c:2794-2802 | Any part of one write of the commit leaves the two-level view as it was |
| CowCommit.StackUnchanged | filesystems/cow.c:2746-2805 | And with it the view through any stack on top |
| CowCommit.ReadRun | filesystems/cow.c:2766-2793 | The buffer holds the grains of a maximal run of set entries, read together where they are consecutive in the file |
| CowCommit.Commit | filesystems/cow.c:2743-2805 | The base holds what the two levels showed in the range of fractions and is otherwise unchanged; every write on the way is harmless |
| CowCommit.Adjacent | filesystems/cow.c:2743-2744 | Corollary of Commit: adjacent ranges compose |
| CowCommit.Rerun | filesystems/cow.c:2716-2722 | Corollary of Commit: run again it changes nothing |
| CowCommit.Full | filesystems/cow.c:2743-2805 | Corollary of Commit: after a full commit the base alone is the former two-level view |
| ScatterGather.AddPiece | filesystems/cow.c:1656-1682 | A piece is merged or appended without changing the bytes moved; exactly an unaligned gap is refused |
| ScatterGather.PrepareRead | filesystems/cow.c:1535-1689 | Every byte of the request is moved once, in order, from the file a lookup of its own finds, or zeroed; no list outgrows totalBlocks; requests past the end fail |
| ScatterGather.SameEffect | filesystems/cow.c:1535-1689 | Memory cleared and then filled from the lists, the bytes arriving in any order, is what byte-by-byte lookup would leave, zeroes included, and other memory is unchanged |
| ScatterGather.StackLookup | filesystems/cow.c:1606-1613 | The stack's lookup only answers with files and sectors there are |
| CowRead.Read | filesystems/cow.c:1245-1386 | A read fails only past the end or unaligned, and once its bytes have arrived, in whatever order, each place holds the byte of the last completed write of the topmost level that has one, or of the base or zero; other memory is unchanged |

## Left out

- `deflateParams`, `deflateCopy`, `deflateSetDictionary`, `deflateEnd` and allocation failures: easy members around the core.
- `deflate_stored` (level 0) and `set_data_type`: neither adds a property to those of the other paths.
- The overlay of `d_buf` and `l_buf` on `pending_buf`, and the capacity of `pending_buf`: separate, unbounded buffers here; every block starts with nothing pending.
- `opt_len` is an unbounded integer; the source lets it pass through -1 while dummy symbols are forced, and the unsigned wrap-around cancels.
- The `FASTEST`, `ASMV`, `UNALIGNED_OK` and `TRUNCATE_BLOCK` variants, and the special cases of `fill_window` for 16-bit machines.
- The static tables of `trees.h` are modelled by the code that generates them, `tr_static_init`.
- Null pointers in `deflate` and `adler32`, and stream error messages.
- LongestMatch.FindLongest: with fewer than three bytes of lookahead only the cap by lookahead is stated, because the head may be stale then.
- Stream.Run: how much space ends the stream is not stated; finishing calls fill all the space they are given until the stream ends.
- Synchronous reads and writes of the disk (no token): the read uses an unset `childInfo` and the write passes the untranslated list.
- `COWCommit` above level 1 and `COW_SpliceParent`: source and parent are the same file, and the copy is not a whole number of entries.
- I/O errors, out-of-space errors and their cleanup, except that a command may be given up before it is issued.
- The branch for `savedGeneration == 0`, `COWClose`, locks, semaphores, page mapping and the linked pointers of the queues, which are sequences here.
- `offset & (grainSize - 1)` is the remainder, the granularity in bytes being a power of two.
- A write in place over a grain already placed may be half done after a crash; nothing is stated of such a grain until its command completes.
- ScatterGather.PrepareRead: the lookups of one request are taken to agree with each other, as they do unless a write completes between them.
- CowCheck.Recovered: the file is taken to be at least as long as the free sector found, which `COWCheck` does not check either.
- CowState.AddEnabled: more than 255 entries of one leaf block in a request are not modelled, because the source's `uint8` count wraps there.
