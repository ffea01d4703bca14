# OmegaDrive: a verified model

OmegaDrive is a key-value cache with an embedded vector store. Clients speak RESP; values go through an
XOR or a keystream-and-XOR codec; hashes are packed into one buffer; changes are sent to a worker that
appends them to a log; the log is replayed at start-up; vectors are quantised to sign bits and searched
shard by shard through a pruned block index and a float rerank.

The project models these parts and proves what they are for, over all inputs, runs and reachable states.
Methods and classes follow the source's loops and in-place updates and are proved against functions on
values; lemmas about those functions state the properties.

## Modules

| module | what it holds |
|---|---|
| `TopK`, `Counting`, `Bits` | bounded selection with heaps and merges; counting and double counting; 64-bit words |
| `VectorIndex`, `VectorStore`, `Quantizer`, `FlatLayout` | block signatures and their meaning; shards, adds and clears; sign bits; flat arrays |
| `Pruning`, `Search` | pruned scans, sharded and two-stage search |
| `Instances`, `SearchLimits`, `RerankLimits` | stores with prescribed contents; the exact conditions of both searches and the inputs they get wrong |
| `VectorEngine`, `ReferenceEngine`, `SearchWire` | the store as it runs; the benchmark's unpruned engine; the VSEARCH reply |
| `RoundRobin`, `Limiter` | concurrent adds in any interleaving; the token bucket |
| `Resp`, `Commands` | the wire format and the command parser |
| `Codec`, `HashEngine`, `AirKeys` | the two value codecs; packed hashes; database keys |
| `Streaming`, `Server`, `Connection`, `Session` | the read loop, the dispatcher, a client's connection, requests on the wire |
| `KeyValue` | the database as a plain map, and every key-value command as an operation on it |
| `Interpreter` | the protocol as a table over argument lists, and that the server follows it on the wire |
| `Log`, `Replay`, `History`, `Worker`, `Recovery` | the log, its replay, server runs as histories, the persistence worker, recovery |
| `Assumptions` | that parameters meeting every assumption of the theorems exist |

## How the source is represented

* A byte is a character below 256, so protocol literals stay readable. A 64-bit word is a sequence of 64
  bits. A 32-bit float is an exact real, an infinity or NaN; rounding is modelled only where it matters,
  as an arbitrary monotone map between the rerank and the merge.
* `parse_int` wraps at 2^32, as release builds do; a debug build panics instead. Truncation to u32 in the
  packed hashes is written out; lemmas that need sizes below 2^32 say so.
* What comes from libraries or hardware is a parameter and the theorems hold for every choice: UTF-8
  validity, upper-casing, number parsing, float printing (every float the parser yields prints as text that
  parses back to it), the router's expert index, the keystream, the iteration order of each `HashMap` (a different one for every merge), the order of
  equal elements in heaps and sorts, the scores of the rerank (dot products under the
  code's saturating cast, where it matters), I/O faults, and the worker's decision to commit. `Assumptions.EnvironmentsExist`
  shows that all assumptions on parameters can be met together.
* `DashMap` is a map keyed by byte strings, which `AirKeys.KeysAreBytes` justifies. One client at a time is
  served; `RoundRobin` and `Worker` are state machines over all interleavings.
* In `VectorEngine` and `ReferenceEngine` ghost fields hold the rows behind the flat arrays.
* Loops read bulk strings through a ghost stand-in for the parser, which keeps the proofs short; callers
  pass the parser itself.

## Main results

* **Fragmentation.** However a byte stream is cut into reads, state, replies, unread bytes and crash are
  those of one read (`Server.FragmentationIndependence`); the running connection refines this loop
  (`Connection.Client.Receive`).
* **Protocol.** For every argument list of every verb a table says whether it is a request, what it does to the
  plain contents and the vector store, and what is answered. Any conversation, in any number of requests cut into
  reads anyhow, is answered as the table says (`Interpreter.Conversation`); every other list is refused for good
  (`Interpreter.RequestRefused`), and only a VSEARCH for no neighbour in a store with something in it is fatal
  (`Interpreter.RequestServed`).
* **Search.** Incremental index equals rebuild over every history; the block score is exactly twice the
  decided disagreements and bounds only the sum of distances. Neither search is exact in general, and both
  are exact on all contents under an exact condition on sizes: pruned search for N vectors in S shards if and
  only if k > 128·(⌈⌈N/S⌉/128⌉ − 1) (`SearchLimits.SearchesExactlyIff`), two-stage search if and only if
  k ≥ ⌈N/S⌉, or N ≤ 1000 and S divides N (`RerankLimits.ReranksExactlyIff`, for the code's own cast to i32). For
  every other size failing contents are given, small numbers whose products and sums are exact in f32. No search
  returns a stored vector twice. `SearchWire` carries this to the VSEARCH reply.
* **Persistence.** The parser reads back exactly what the log prints; replaying the log of any run gives
  back the vector store exactly and the contents the log remembers; retried batches do not change the
  contents, and leave the vector store right if and only if every one that adds without flushing is followed by a
  flush (`Recovery.VectorRecoveryIff`); stopping the worker anywhere leaves a file that recovers a prefix of what
  was sent (`Recovery.EndToEnd`), even in the middle of a first write unless the torn bytes hold a command
  (`Recovery.TornWrite`; `Replay.TornCarriesOut` gives some that do). Clients are answered as before a restart under an exact condition on the strings
  (`Replay.SameAnswersIff`), and always without MSET (`History.FaithfulRun`). What is said of contents holds until
  a hash has 2^32 fields, the exact limit of its packed count (`KeyValue.PrefixesMeanIff`).
* **Values.** SET then GET, and MSET then MGET, return the value byte for byte over the wire, HMSET then HGETALL
  the fields; crossing the pairs returns a value under the keystream. What is stored is the value XORed with the
  expert's key, byte by byte (`Codec.RawStores`), and for SET with the keystream (`Codec.CascadeStores`).

Where the code and its documentation differ the code is followed. The documentation's "guarantees 100%
recall" (the repository's README.md, line 65) holds only under the conditions above, and its rerank pool of
N/100 is N/500 in the code. Start-up replay stores MSET values through the SET codec, so a value written by MSET and read by MGET
before a restart reads under the keystream after it; `Replay.Remembered` says so. EXISTS is dispatched but
never parsed. A VSEARCH for zero neighbours in a non-empty store panics and ends the connection. ZADD takes its key and
leaves score and member to be read as inline lines. A request that is refused blocks its connection for good.

## Model

| member | source | states |
|---|---|---|
| `VectorIndex.RebuildRestores` | omega/src/vector_store.rs:33-61 | appending vectors and rebuilding once restores the from-scratch index if and only if the old last block was full or the number of blocks is unchanged |
| `VectorIndex.RebuildAfterAdd` | omega/src/vector_store.rs:190-191 | after one add the incremental rebuild equals the index built from scratch |
| `VectorIndex.ScoreMeaning` | omega/src/vector_store.rs:206-214 | with D, A and S the bits decided against, decided for and undecided: D+A+S is the dimension, S is the stored superposition count, the raw sum is 2D+S, the score is 2D and the subtraction never saturates |
| `VectorIndex.BlockDistanceBounds` | omega/src/vector_store.rs:63-104 | for every block and query the sum of the members' distances lies between D·⌊7w/10⌋ + S·(⌊3w/10⌋+1) and D·w + A·(w−⌊7w/10⌋) + S·(w−⌊3w/10⌋−1) |
| `VectorStore.EveryHistory` | omega/src/vector_store.rs:177-193 | over every history of adds and clears: every shard's index equals the from-scratch index, entry n sits in shard n mod S at slot n div S and nothing else is stored, and the counter is the number of vectors |
| `VectorStore.AddHistory` | omega/src/vector_store.rs:177-193 | one add keeps the index invariant, the placement of all entries and the count |
| `VectorEngine.CoreShard.ComputeSignature` | omega/src/vector_store.rs:63-104 | the loops over the flat words compute the signature of exactly the vectors in the range, at the 7/10 and 3/10 thresholds |
| `VectorEngine.CoreShard.RebuildBlocks` | omega/src/vector_store.rs:33-61 | refreshes the last block in place or pushes the missing ones, as the specification's rebuild does |
| `VectorEngine.CoreShard.Append` | omega/src/vector_store.rs:180-192 | key, words, padded floats and blocks grow together and the flat arrays keep one row a vector |
| `VectorEngine.CoreShard.ScanPruned` | omega/src/vector_store.rs:202-241 | the scan visits blocks in ascending score order, stops at the first block whose score is met by k candidates, and keeps k smallest distances of what it scanned |
| `VectorEngine.SharedVectorStore.Add` | omega/src/vector_store.rs:177-193 | the in-place add turns the stored value into the specified one and touches no other shard |
| `VectorEngine.SharedVectorStore.Len` | omega/src/vector_store.rs:390-398 | the total over all shards |
| `VectorEngine.SharedVectorStore.Clear` | omega/src/vector_store.rs:400-410 | every shard is emptied and the counter restarts |
| `VectorEngine.SharedVectorStore.Merge` | omega/src/vector_store.rs:248-260 | push-then-pop over k yields k cheapest of all shards' answers in ascending order |
| `VectorEngine.SharedVectorStore.Search` | omega/src/vector_store.rs:196-271 | min(k, N) results, each a stored key with its own vector's distance, no vector twice, ascending, chosen by one run of scans and merge; when k exceeds what precedes the last block of every shard, or no skipped block scores above a member's distance, the distances are the k smallest of the whole store |
| `VectorEngine.SharedVectorStore.SearchReranked` | omega/src/vector_store.rs:274-388 | min(k, N) results, each a stored key with its own score as the float returned, no vector twice, from a two-stage search that hands to the rerank, from every shard, the number of candidates the code's pool allows; when every shard fits that width the scores are the k largest of the whole store, descending |
| `Pruning.PruneCertificate` | omega/src/vector_store.rs:218-223 | when blocks are skipped the heap is full and no kept distance exceeds a skipped block's score |
| `Pruning.PrunedExactIff` | omega/src/vector_store.rs:218-241 | for one run: a shard's pruned answer is a true top k if and only if no skipped vector is nearer than a kept one |
| `Pruning.PrunedExact` | omega/src/vector_store.rs:218-241 | if no skipped block scores above any of its members' distances, the pruned answer is a top k of the full scan |
| `Pruning.RoomForAll` | omega/src/vector_store.rs:305-309 | a shard no larger than k is scanned completely and kept completely |
| `Pruning.NothingToSkip` | omega/src/vector_store.rs:218-241 | a scan for k that exceeds everything before the last block skips nothing and is a top k |
| `Pruning.LoneVectorScore` | omega/src/vector_store.rs:69-90 | a block of one vector scores twice the query's unset bits, whatever the vector is |
| `SearchLimits.PruningMisses` | omega/src/vector_store.rs:196-241 | for every dimension, every number of vectors and every smaller k there are contents on which every scan keeps k vectors at distance 1 although the query itself is stored |
| `SearchLimits.ScansExactlyIff` | omega/src/vector_store.rs:202-241 | every scan for k of every shard of n vectors, for every query, is a top k if and only if n = 0 or k > 128·⌊(n − 1)/128⌋ |
| `SearchLimits.SearchesExactlyIff` | omega/src/vector_store.rs:196-271 | every search for k in every store of N vectors in S shards that adds and clears can produce returns the k smallest distances if and only if the largest shard is empty or k > 128·⌊(⌈N/S⌉ − 1)/128⌋ |
| `SearchLimits.ScansFew` | omega/src/vector_store.rs:218-223 | the stopping test is met by equality: among copies of the query a scan for k looks at fewer than k + 128 vectors, however many there are |
| `TopK.MergedIsGlobal` | omega/src/vector_store.rs:248-257 | the k cheapest of the parts' k cheapest are the k cheapest of everything |
| `TopK.SelectionIsSortedPrefix` | omega/src/vector_store.rs:259-260 | any top k in ascending order lists exactly the first k of all sorted costs, however ties fell |
| `TopK.MonotoneKeepsSelection` | omega/src/vector_store.rs:355-367 | the lossy trip of scores through f32 keeps a selection a selection |
| `TopK.BinaryHeap.Offer` | omega/src/vector_store.rs:233-238 | growing to k and then replacing the worst by something strictly better keeps k cheapest of what was offered |
| `TopK.BinaryHeap.PushTrim` | omega/src/vector_store.rs:252-255 | pushing and popping over k keeps k cheapest |
| `Search.SearchExact` | omega/src/vector_store.rs:196-271 | sharded search is globally exact when pruning was sound in every shard |
| `Search.WideEnoughIsSound` | omega/src/vector_store.rs:218-223 | pruning is sound whenever k exceeds what precedes the last block of every shard |
| `Search.SearchSize` | omega/src/vector_store.rs:196-271 | every search returns min(k, N) results, pruned or not |
| `Search.SearchDistinct` | omega/src/vector_store.rs:196-271 | no search returns a stored vector twice |
| `Search.RerankExact` | omega/src/vector_store.rs:284-376 | with every shard inside the rerank width, coarse scan, rerank and merge return the k largest rounded scores of the whole store in descending order |
| `Search.WidthIsPool` | omega/src/vector_store.rs:280-281 | the width is at least k, one more of it would make more than min(N, 1000) and more than N/500 over all shards, and above k it never exceeds N and one of the two over all shards |
| `Search.PoolUnique` | omega/src/vector_store.rs:280-281 | only one number meets those bounds |
| `Search.RerankPool` | omega/src/vector_store.rs:284-333 | in every two-stage search the scan of every shard keeps that many candidates, or all its vectors |
| `Search.RerankDistinct` | omega/src/vector_store.rs:274-388 | no two-stage search does either |
| `Search.FullyRerankedIff` | omega/src/vector_store.rs:280-281 | for N vectors dealt to S shards every shard fits the width if and only if k is at least ⌈N/S⌉, or N ≤ 1000 and S divides N |
| `Search.StoreFullyRerankedIff` | omega/src/vector_store.rs:274-281 | the same for any store that adds and clears can produce |
| `RerankLimits.RerankMisses` | omega/src/vector_store.rs:274-388 | for every width a shard exceeds there are contents on which every two-stage search lists only scores of one half, though a vector with score one is stored, under the code's scaling and saturating cast at every dimension |
| `RerankLimits.ReranksExactlyIff` | omega/src/vector_store.rs:274-388 | for every trip through f32 that keeps order and tells 0.5 from 1.0, two-stage search with the code's scores returns the k largest of every reachable store of N vectors in S shards, for every query, if and only if k ≥ ⌈N/S⌉, or N ≤ 1000 and S divides N |
| `Quantizer.QuantizedBit` | omega/src/vector_store.rs:152-174 | bit p is set exactly when p is below the dimension and component p exists and is a number at least 0 or positive infinity |
| `Quantizer.DistanceIsSignDisagreement` | omega/src/vector_store.rs:228-232 | XOR/popcount distance counts the components whose signs disagree |
| `Quantizer.QuantizeBytewise` | omega/src/vector_store.rs:152-174 | packing by bytes and assembling little-endian gives the reference quantisation |
| `Quantizer.QuantizeDirect` | omega/src/bin/vector_bench.rs:103-113 | the benchmark's direct packing gives the same bits on full-length vectors |
| `ReferenceEngine.PlainShard.Search` | omega/src/bin/vector_bench.rs:29-52 | the unpruned scan returns a top k of the shard, ascending |
| `ReferenceEngine.ShardedVectorEngine.Add` | omega/src/bin/vector_bench.rs:96-101 | adding with the store's counter keeps both engines holding the same keys, bit vectors and floats, which the store alone pads or cuts |
| `ReferenceEngine.ShardedVectorEngine.SearchSharded` | omega/src/bin/vector_bench.rs:116-144 | the keys and distances of one selection of the k nearest vectors of any store it mirrors, no vector twice, ascending: the distances an exact pruned search returns |
| `RoundRobin.RunConserves` | omega/src/vector_store.rs:177-193 | in every interleaving of claims and insertions, shard i's size plus its pending claims is the count of numbers below the counter with remainder i |
| `RoundRobin.Quiescent` | omega/src/vector_store.rs:390-398 | with nothing pending, shard sizes differ by at most one and add up to the counter |
| `RoundRobin.QuiescentEntries` | omega/src/vector_store.rs:177-193 | with nothing pending, every claimed entry sits in shard n mod S of its number n exactly once, and nothing else is stored |
| `Resp.BulkStable` | omega/src/resp.rs:158-174 | a bulk string that parses parses alike with more bytes behind it |
| `Resp.BulkRoundTrip` | omega/src/resp.rs:198-206 | a printed bulk string is read back whole wherever it stands |
| `Resp.BulksRoundTrip` | omega/src/main.rs:458-466 | a run of printed bulk strings is read back item by item |
| `Resp.SizeIff` | omega/src/resp.rs:176-184 | a size is read from a tagged line of digits and nothing else, as its number modulo 2^32 |
| `Resp.SizeWraps` | omega/src/resp.rs:176-184 | a printed size is read modulo 2^32 |
| `Resp.BulkIff` | omega/src/resp.rs:158-174 | a bulk string is read exactly where a size line, that many bytes and a line end stand |
| `Resp.IntRoundTrip` | omega/src/resp.rs:216-222 | a printed integer, negative or not, reads back as itself |
| `Resp.ParseIntAt` | omega/src/resp.rs:176-184 | the digit loop with its u32 wrap-around yields the number modulo 2^32 and the digits' count |
| `Resp.ParseBulkAt` | omega/src/resp.rs:158-174 | the positional parser refines the specification |
| `Resp.ParseBulksAt` | omega/src/main.rs:488-496 | the argument loops read n bulk strings or nothing |
| `Commands.CommandStable` | omega/src/resp.rs:26-156 | a command that parses parses alike with more bytes behind it |
| `Commands.ParseRequest` | omega/src/resp.rs:26-156 | on a printed request the byte parser yields the command its arguments stand for and stops after the last argument used, or refuses it, as the argument-list semantics says |
| `Commands.ReadPairs` | omega/src/resp.rs:91-100 | the field loop collects the pairs or fails on a name that is not UTF-8 |
| `Commands.ReadFloats` | omega/src/resp.rs:120-129 | the float loop collects the floats or fails on the first bad one |
| `Commands.ParseCommandFast` | omega/src/resp.rs:26-156 | the parser with its loops refines the specification |
| `Codec.CascadeRoundTrip` | omega/src/inference.rs:312-367 | for every byte string and router choice the SET pair gives the value back from ⌈n/64⌉ chunks, one when empty |
| `Codec.RawRoundTrip` | omega/src/inference.rs:210-297 | the same for the MSET pair |
| `Codec.CrossedReads` | omega/src/main.rs:503-504 | reading through the other pair gives the value XORed with the keystream |
| `Codec.CrossedReadsIff` | omega/src/main.rs:403-408 | so a crossed read is right if and only if the keystream is zero along the value |
| `Codec.RawStores` | omega/src/inference.rs:210-229 | MSET stores chunk i, byte j as the XOR of key byte j and byte 64 i + j of the value, zero behind its end; the key is routed by the first 64 bytes or by zeros |
| `Codec.CascadeStores` | omega/src/inference.rs:312-346 | SET stores the same with the value under the ChaCha20 keystream of the key's first 32 bytes and the next 12 as nonce |
| `Codec.StoredPlainIff` | omega/src/inference.rs:249-253 | a stored byte equals the plain one if and only if the key byte is zero |
| `Codec.XorByBits` | omega/src/inference.rs:249-253 | XOR sets the bits in which its operands differ |
| `Codec.EncodeCascade` | omega/src/inference.rs:312-346 | the encoding loops, with the keystream applied in place first |
| `Codec.EncodeRaw` | omega/src/inference.rs:210-229 | the raw encoding loop |
| `Codec.DecodeCascade` | omega/src/inference.rs:348-367 | the decoding loop, truncation and keystream in place |
| `Codec.DecodeRaw` | omega/src/inference.rs:286-297 | the raw decoding loop and truncation |
| `AirKeys.KeysAreBytes` | omega/src/main.rs:57-81 | keys lose nothing and two are equal if and only if their byte strings are |
| `HashEngine.PackRoundTrip` | omega/src/hash_engine.rs:7-24 | a packed buffer reads back as the fields packed, its count is the number of its records and they end at its last byte |
| `HashEngine.Layout` | omega/src/hash_engine.rs:7-24 | a record is its two lengths, big-endian in four bytes each, the name and the value, behind a big-endian count |
| `HashEngine.MergeHolds` | omega/src/hash_engine.rs:27-71 | merging is map override for every iteration order, and leaves a well-formed buffer |
| `HashEngine.HistoryHolds` | omega/src/hash_engine.rs:27-71 | after every history of HMSETs on a key the buffer stands for the override of all field lists in order |
| `HashEngine.HashReadBack` | omega/src/hash_engine.rs:74-102 | the reply's header counts the bulk strings behind it, which read back as the stored fields in order and end at the last byte |
| `HashEngine.Serialize` | omega/src/hash_engine.rs:7-24 | the packing loop |
| `HashEngine.MergeBuffers` | omega/src/hash_engine.rs:27-71 | the reading, overwriting and packing loops |
| `HashEngine.DeserializeIntoResp` | omega/src/hash_engine.rs:74-102 | the streaming loop appends exactly the reply |
| `Streaming.Fragmentation` | omega/src/main.rs:357-609 | any read loop whose steps consume bytes and are unchanged by more bytes gives the same result for every way of cutting the stream |
| `Server.StepStable` | omega/src/main.rs:361-604 | a pass that handles something or crashes does the same with more bytes behind it, for commands, MSET and MGET arguments and inline lines |
| `Server.FragmentationIndependence` | omega/src/main.rs:357-609 | for every stream and every cutting: same state, same replies, same unread tail, same crash or none |
| `Connection.Database.Execute` | omega/src/main.rs:378-599 | carrying out any command in place changes the database, vectors and channel as specified and gives the specified reply |
| `Connection.Database.SetMany` | omega/src/main.rs:467-485 | the MSET loop stores and logs pair after pair |
| `Connection.Pass` | omega/src/main.rs:361-604 | one pass over the read buffer does what the step function says |
| `Connection.Client.Receive` | omega/src/main.rs:357-609 | after one read the database, the unread bytes and everything written to the socket are those of the specified loop; a crash loses only replies not yet sent |
| `Connection.ReplayFile` | omega/src/main.rs:186-239 | the start-up loop makes exactly the changes decoded from the file, position strictly increasing |
| `KeyValue.HistoryMeans` | omega/src/main.rs:380-575 | after every history from any state, as long as no hash ever has 2^32 fields, the database stands for the map the simple operations build, hashes viewed as maps |
| `KeyValue.PrefixesMeanIff` | omega/src/hash_engine.rs:7-71 | the database stands for that map after every prefix of a history if and only if no hash ever has 2^32 fields |
| `KeyValue.ReplyMeans` | omega/src/main.rs:398-559 | every key-value command answers as that map says |
| `KeyValue.GetMeans` | omega/src/main.rs:398-418 | GET returns what SET stored, what MSET stored under the keystream, null or WRONGTYPE |
| `KeyValue.MGetMeans` | omega/src/main.rs:499-514 | MGET returns what MSET stored, and null for missing keys, hashes and empty values |
| `KeyValue.StoredInline` | omega/src/main.rs:382-387 | a value of at most 64 bytes is stored inline, a longer one as its chunks, with its length |
| `Interpreter.DecodesAs` | omega/src/resp.rs:26-156 | the parser takes an argument list for the command the table has for it and takes the arguments the table says, or refuses it, for every verb |
| `Interpreter.RequestServed` | omega/src/main.rs:361-604 | one pass on a printed request with anything behind it leaves the contents and vectors the table says and answers so, stopping after its last argument taken, or dies if and only if it is a VSEARCH for no neighbour with something stored |
| `Interpreter.RequestRefused` | omega/src/resp.rs:26-156 | a list the table does not accept makes the connection wait, whatever follows |
| `Interpreter.InlineStep` | omega/src/main.rs:602-604 | a line outside a request is passed over without a reply once it is complete, and waited for before |
| `Interpreter.BulksDrained` | omega/src/main.rs:602-604 | arguments left over by a request are passed over as such lines, unless one holds a line feed or starts like a request |
| `Interpreter.Conversation` | omega/src/main.rs:357-609 | from any state that stands for a world, requests in any number and cut into reads anyhow are answered one by one as the table says, in order, and leave the world the table leaves, with nothing unread |
| `Session.SetThenGet` | omega/src/main.rs:380-418 | SET then GET on the wire returns the value byte for byte in any state |
| `Session.MSetThenMGet` | omega/src/main.rs:453-517 | MSET then MGET likewise, an empty value reading as null |
| `Session.HmSetThenHGetAll` | omega/src/main.rs:519-559 | HMSET then HGETALL on the wire returns the fields in the order given, in any state in which the key holds no hash |
| `Log.EntryRoundTrip` | omega/src/persistence_neural.rs:16-73 | parsing a printed entry with any bytes behind it yields its command and exactly its bytes if and only if it has a field or float where one is needed |
| `Log.PrintEntry` | omega/src/persistence_neural.rs:16-73 | the printing loops with their literal heads produce the request of the entry's arguments |
| `Replay.LogDecodes` | omega/src/main.rs:186-239 | replaying a concatenated log decodes exactly the entries written |
| `Replay.LogThenMore` | omega/src/main.rs:186-239 | a log with anything behind it decodes to its entries and then what is behind |
| `Replay.JunkSkipped` | omega/src/main.rs:231-237 | bytes that start no command are passed over, however many |
| `Replay.TornSkipped` | omega/src/main.rs:190-237 | an entry cut off before its end adds nothing, unless a star stands in what is left of it |
| `Replay.TornCarriesOut` | omega/src/main.rs:190-237 | a SET cut off behind a value that is a printed FLUSHDB flushes the rebuilt database |
| `Replay.LiveIsReplayed` | omega/src/main.rs:186-239 | for every history replay gives the same vector store and, unless a hash ever had 2^32 fields, the contents the log remembers, while the live database stands for the history's contents |
| `Replay.SameAnswersIff` | omega/src/main.rs:186-239 | replayed and live databases answer every GET, DEL, EXISTS, HGETALL (up to field order) and MGET alike if and only if every string under a UTF-8 key came through SET or is left alone by the keystream, and every other string is empty |
| `History.RunIsHistory` | omega/src/main.rs:361-604 | every run of the server is a history of changes all of which its log can hold |
| `History.RunIsReplayed` | omega/src/main.rs:186-239 | whatever bytes a client sends, cut anyhow, replaying the log rebuilds the vectors exactly and, unless a hash ever had 2^32 fields, the remembered contents, and answers as before under exactly that condition |
| `History.FaithfulRestart` | omega/src/main.rs:186-239 | without MSET every command but VSEARCH is answered by the replayed database as by the live one, up to the order of hash fields, and the vector stores are equal |
| `History.FaithfulRun` | omega/src/main.rs:186-239 | the same for every run in which no command handled is an MSET, whatever bytes it consists of and however they are cut |
| `History.ServerStoreOk` | omega/src/main.rs:564-575 | in every run the vector store is what the run's adds since its last clear leave: index invariant, placement and count |
| `SearchWire.SearchReply` | omega/src/main.rs:576-591 | the answer of a server that answers by the two-stage search to a VSEARCH for at least one neighbour, or in an empty store: one of its possible answers, printed, with min(k, N) stored vectors, none twice, by key and own score, the k largest scores when every shard fits the width |
| `SearchWire.SearchServed` | omega/src/main.rs:576-591 | a VSEARCH request for at least one neighbour is answered in every state and changes nothing |
| `SearchWire.SearchCrashesIff` | omega/src/vector_store.rs:336-353 | a VSEARCH request ends the connection if and only if it asks for no neighbour and something is stored |
| `SearchWire.SearchReadBack` | omega/src/main.rs:581-590 | the reply's header counts keys and scores, and a client reads back every key with its own score, in order, to the last byte |
| `SearchWire.RunThenSearch` | omega/src/main.rs:576-591 | after any bytes to a server that started with an empty store, if all of them were handled, the next VSEARCH request is answered on the wire with stored vectors of that run's store, by key and own score, none twice; they are the k best when k ≥ ⌈N/S⌉, or N ≤ 1000 and S divides N, N being the adds since the run's last clear |
| `Worker.StepSafe` | omega/src/persistence_neural.rs:223-337 | every step of the worker and its channel keeps the order and file invariant |
| `Worker.EveryRunSafe` | omega/src/persistence_neural.rs:223-337 | at every point of every run, whatever log the file held before, sent = committed batches ++ batch ++ channel, and the file is the committed batches each written at least once and then the batch at hand as often as its write succeeded |
| `Worker.PersistenceWorker.Save` | omega/src/persistence_neural.rs:270-304 | after any number of attempts the batch is committed, with one copy more than fsync faults, if one of them went through, and is otherwise still being retried with nothing lost |
| `Worker.PersistenceWorker.Round` | omega/src/persistence_neural.rs:223-337 | a round collects the whole channel and saves or holds the batch; nothing sent is lost, however long the disk fails |
| `Recovery.BatchTwice` | omega/src/persistence_neural.rs:277-304 | any batch replayed twice in a row leaves the contents as once, for every mix of commands and type changes |
| `Recovery.RepeatsAreOnce` | omega/src/persistence_neural.rs:277-304 | the same for n ≥ 1 times |
| `Recovery.VectorsTwiceIff` | omega/src/main.rs:204-211 | a batch replayed twice leaves the vector store as once if and only if it adds no vector or also flushes |
| `Recovery.CrashRecovery` | omega/src/persistence_neural.rs:223-337 | stopped anywhere, the file replays to the contents after a prefix of what was sent that holds every committed batch |
| `Recovery.TornWrite` | omega/src/persistence_neural.rs:270-304 | a crash in the middle of the first write of a batch recovers a prefix of what was sent that holds every committed batch and the entries written whole, if and only if no command is found in the torn rest; none is without a star in it |
| `Recovery.ReplicatedVectorsIff` | omega/src/persistence_neural.rs:277-304 | replaying batches with their repetitions gives the vector store of replaying each once if and only if every repeated batch that adds without flushing has a flushing batch behind it |
| `Recovery.VectorRecoveryIff` | omega/src/persistence_neural.rs:277-304 | stopped anywhere, the vector store rebuilt from the file is the one after the same prefix if and only if every batch in the file that was retried and adds without flushing is followed there by one that flushes |
| `Recovery.EndToEnd` | omega/src/main.rs:186-239 | from a client's bytes to the file and back, in a session that starts from the log of earlier ones: the live database stands for the earlier contents and the run's changes, the rebuilt one for the contents after such a prefix, unless a hash fills up in the replay (never, without retries, if none did before), with the vector store of that prefix if and only if harmful retries are flushed away, and for the remembered live contents and the live vectors once the worker has caught up |
| `Limiter.AdmissionBound` | omega/src/main.rs:353-376 | tokens stay in [0, 2000] and at most 2000 + 2·200000·T commands are let through by time T |
| `Limiter.BoundAttained` | omega/src/main.rs:353-376 | the bound is reached for every number of sleeps, so the factor 2 is real |
| `Limiter.BurstIff` | omega/src/main.rs:364-376 | n commands that arrive together all pass without sleeping if and only if n is at most what was left plus 200000 a second since the last refill, and at most 2000 |
| `Limiter.TokenBucket.Take` | omega/src/main.rs:364-376 | the bucket's fields follow the specified admission |

## Left out

- Sockets, runtimes, listeners, the command line, thread pinning, telemetry, video storage, Python bindings, and the WebSocket publish/subscribe server with its frame demasking: I/O, foreign calls or easy members.
- Router and agent arithmetic, CUDA and AVX2 paths, SafeTensors loading, licence checks, and the keystream's cipher: parameters here, or not part of this model.
- The bincode dump read before the log (omega/src/main.rs:167-176): what is proved of replay starts from an empty database.
- Concurrent clients racing on one key: the source updates the map and sends to the log in two steps and gives no guarantee.
- Torn writes are covered for a crash during a batch's first write; a failed write after which the worker goes on is taken to have written nothing.
- Lock poisoning, hash-table internals and memory exhaustion.
- The token bucket inside the read loop: it only delays commands; `Limiter` models it by itself.
- VectorEngine.SharedVectorStore.Search: which of several equally distant vectors is returned is left open, although the source's heap orders equal distances by position.
- Server and Connection take the answer of VSEARCH from a function of the store, the query and k; `SearchWire` assumes of it only that it is a possible answer of the two-stage search. The store inside `Connection.Database` is the value that `VectorEngine.SharedVectorStore` is proved to implement.
- RerankLimits.ReranksExactlyIff: dot products are exact real sums under the code's cast; the rounding of each f32 product and partial sum is not modelled. The failing contents involve none, and the exact sizes hold for every score function.
- Server.Panics: a VSEARCH whose k + 1 heap slots exceed what the allocator can give also panics (omega/src/vector_store.rs:288); the model has no such limit.
- VectorEngine.CoreShard.ScanPruned: distances of a block are computed before they are offered to the heap, in two loops where the source has one.
- Codec.EncodeRaw: the GPU batch path taken from 1024 chunks on is not modelled.
