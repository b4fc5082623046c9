# DecentFS verification

A Dafny 4.11 model of DecentFS, a peer-to-peer file store over a Kademlia DHT, with proofs about its four parts.

* **Routing table.** `Ids`, `Routing`, `Recency`, `Geometry`. Identifiers are 20-byte strings; byte and bit loops
  are proved against 160-bit numbers (the metric of section 2.1 of the Kademlia paper, Maymounkov and Mazieres, 2002).
  Buckets and tables are mutable objects proved against functions on values. Every bucket is the first 20 entries of an
  unbounded recency list, bucket numbers order whole blocks of contacts around any target, `FindClosest` is exact and
  canonical, and a table never holds more than 3131 contacts.
* **Files and Merkle roots.** `Chunks`, `FsStore`, `Merkle`, `Readers`, `Files`. SHA-256 is a parameter: an arbitrary
  total function that nothing assumes to be injective, so binding is stated as a computed collision. Readers may
  return short reads, empty reads, errors, and bytes together with EOF. The file-system store is a machine of steps
  with faults and crashes.
* **Erasure coding.** `Fields`, `Galois`, `ReedSolomon`, `Erasure`, `EcFiles`. The Reed-Solomon library is a contract for
  each parameter pair. The systematic code whose shard r holds values of polynomials at the r-th of 256 elements is proved to
  meet it for all parameters, from the laws of the field and interpolation upwards. Splitting, padding, shard loss by
  position, joining and trimming are the repository's own, up to the round trip from bytes over losses back to bytes.
* **Protocol.** `Messages`, `Correlation`, `Node`, `Discovery`, `Network`, `NetworkSteps`, `NetworkSafety`,
  `NetworkProgress`, `Lookup`, `Replicas`. Request and
  response correlation over one-slot channels as interleaved steps; nodes with a bag of messages that may be lost or
  overtake each other, concurrent uploads, provider records and clients that ask for providers. Safety holds in every run,
  and from every reachable state a file can be stored, announced and found.

Where the code and its comments differ, the code is followed: a refreshed contact keeps its old address, a download does not
recompute the Merkle root, the type of a delivered response is not compared with its request, a provider is recorded by
others under the connection address and not under its listening address (the message field for it exists, but
`AnnounceFile` leaves it empty), a put whose stat fails writes a chunk that is there again, and one lookup round can query
one address twice, exactly when two contacts of its shortlist share a new address before the selection is full.

`dafny verify dfyconfig.toml` checks the project. `Sequences` holds list and division facts.

## Assumptions of the model

* The operating system, the clock, the network and peers' answers are parameters: plans of reads, lists of failing writes, clock
  readings, views of the table at each `FindClosest`, outcomes of remote calls. Theorems hold for all of them.
* Request identifiers are fresh, as the code expects of random 160-bit values.
* `os.Rename` is atomic, and one `PutChunk` happens at a time.
* Message decoding is the inverse of encoding; empty optional fields are omitted, so empty chunk data arrives as nil.

## Model

| member | source | states |
|---|---|---|
| `Ids.XOR` | internal/dht/id.go:68-74 | the byte loop returns the XOR of both identifiers |
| `Ids.Equals` | internal/dht/id.go:77-84 | true exactly for equal identifiers |
| `Ids.Less` | internal/dht/id.go:89-99 | the early-return byte loop decides exactly whether one 160-bit big-endian number is below the other |
| `Ids.PrefixLen` | internal/dht/id.go:108-128 | 160 exactly for value zero, otherwise the p with 2^(159-p) <= value < 2^(160-p) |
| `Ids.CountZeroBits` | internal/dht/id.go:117-125 | the inner bit loop counts the leading zero bits of one byte |
| `Ids.PrefixLenIsNumericRange` | internal/dht/id.go:101-128 | for p < 160: prefix length p if and only if 2^(159-p) <= value < 2^(160-p) |
| `Ids.FirstDifferenceDecides` | internal/dht/id.go:86-99 | the first differing byte decides the order of the numbers |
| `Ids.ValueInjective` | internal/dht/id.go:76-84 | equally long byte strings with equal numbers are equal |
| `Ids.DistanceSymmetric` | internal/dht/id.go:66-74 | XOR distance is symmetric |
| `Ids.DistanceZeroIffEqual` | internal/dht/id.go:66-84 | the distance is zero if and only if the identifiers are equal |
| `Ids.DistanceOneToOne` | internal/dht/id.go:66-74 | for a fixed target each distance belongs to one identifier only |
| `Ids.XorCancels` | internal/dht/id.go:66-74 | every distance from a target is taken: XOR with the target undoes itself |
| `Ids.TriangleInequality` | internal/dht/id.go:66-74 | distance(a,c) <= distance(a,b) + distance(b,c) as numbers |
| `Ids.XorPrefix` | internal/dht/id.go:108-128 | XOR of strings with different prefix lengths has the shorter one; equal prefix lengths grow |
| `Routing.Bucket.Touch` | internal/dht/routing_table.go:24-36 | found exactly if the identifier is present; then that contact, address included, is moved to the front and nothing else changes order |
| `Routing.Bucket.Add` | internal/dht/routing_table.go:40-48 | the contact is in front, the others follow in their order, and at most K = 20 stay: the last one falls out of a full bucket |
| `Routing.Bucket.All` | internal/dht/routing_table.go:51-55 | a copy of the contacts in order |
| `Routing.RoutingTable.constructor` | internal/dht/routing_table.go:66-74 | 160 separate empty buckets |
| `Routing.RoutingTable.BucketNumber` | internal/dht/routing_table.go:81-89 | prefix length of the distance to the owner, clamped to 159 |
| `Routing.BucketIsPrefixLength` | internal/dht/routing_table.go:81-89 | the clamp concerns the owner only; every other identifier is bucketed by its prefix length |
| `Routing.RoutingTable.AddContact` | internal/dht/routing_table.go:92-122 | changes exactly the selected bucket of the table, never stores the owner, keeps the table well formed |
| `Routing.AddKeepsWellFormed` | internal/dht/routing_table.go:92-122 | placement by bucket number, no duplicate identifier, no owner and at most K per bucket are kept by every call |
| `Routing.RefreshShape` | internal/dht/routing_table.go:24-48 | where every contact of the changed bucket comes from, with the front contact carrying the new LastSeen and, if known, its old address |
| `Routing.RoutingTable.Gather` | internal/dht/routing_table.go:130-134 | the contacts of all buckets in bucket order |
| `Routing.RoutingTable.FindClosest` | internal/dht/routing_table.go:126-161 | min(n, size) contacts in strictly increasing distance, everything left out is strictly farther than everything returned |
| `Routing.NearestOf` | internal/dht/routing_table.go:140-160 | sorting a copy and cutting it gives exactly the n closest of a pool without duplicate identifiers |
| `Routing.Closer` | internal/dht/routing_table.go:141-155 | the comparison is the order of the distances as numbers |
| `Routing.SortByDistance` | internal/dht/routing_table.go:141-155 | the contract of the library sort: a permutation in order of distance |
| `Routing.CutOfSortedIsClosest` | internal/dht/routing_table.go:157-160 | cutting any sorted permutation of distinct contacts gives the exact closest ones |
| `Recency.BucketIsRecencyList` | internal/dht/routing_table.go:24-48 | LRU refinement: bucket i holds the first K distinct identifiers of the calls for bucket i, newest first |
| `Recency.NewestComesFirst` | internal/dht/routing_table.go:92-118 | one more call on the unbounded recency list has the effect of move-to-front or prepend-and-cut |
| `Recency.TableAfterWellFormed` | internal/dht/routing_table.go:92-122 | the table invariant after every run of calls |
| `Recency.BucketSeenInOrder` | internal/dht/routing_table.go:104-117 | LastSeen is the clock reading of the newest call for the contact, and contacts stand in order of their newest calls |
| `Recency.LastSeenNeverIncreases` | internal/dht/routing_table.go:104-117 | with a non-decreasing clock LastSeen never increases from front to back |
| `Recency.AddressFromInsertion` | internal/dht/routing_table.go:107-118 | each address is the one of the call that last inserted the contact; refreshing calls do not change it |
| `Geometry.BlocksDecideDistance` | internal/dht/routing_table.go:81-89 | bucket numbers alone order blocks: bucket p of the target, then all higher buckets together, then p-1, p-2, ..., the owner as target included |
| `Geometry.ClosestFollowsBlocks` | internal/dht/routing_table.go:126-161 | FindClosest lists contacts block by block and leaves out none of an earlier block while listing one of a later block |
| `Geometry.DistancePrefix` | internal/dht/routing_table.go:81-89 | the prefix length of a distance to any target follows from two bucket numbers |
| `Geometry.ClosestIsCanonical` | internal/dht/routing_table.go:126-161 | the identifiers returned depend only on the set of identifiers held, not on bucket order or sort stability |
| `Geometry.BucketCapacity` | internal/dht/routing_table.go:81-118 | bucket i holds at most min(20, 2^(159-i)) contacts |
| `Geometry.TableSizeBound` | internal/dht/routing_table.go:92-118 | no run of AddContact makes a table hold more than 3131 contacts |
| `Chunks.HexRoundTrip` | internal/storage/chunkid.go:31-48 | decoding the hex form of any byte string gives it back |
| `Chunks.HexInjective` | internal/storage/chunkid.go:31-33 | different byte strings have different hex forms |
| `Chunks.HexEncodeAt` | internal/storage/chunkid.go:29-33 | byte i is written at positions 2i and 2i + 1, high half first, with the digits 0-9 and a-f |
| `Chunks.NameIsLowerCase` | internal/storage/chunkid.go:29-33 | no character of a chunk identifier's string is an upper-case letter |
| `Chunks.ParsesWhen` | internal/storage/chunkid.go:35-48 | parsing succeeds exactly for 64 hex digits of either case |
| `Chunks.NameParses` | internal/storage/chunkid.go:31-48 | parsing a chunk identifier's string gives the identifier |
| `Chunks.BadCharacter` | internal/storage/chunkid.go:37-48 | a character that is no hex digit makes parsing fail |
| `Chunks.ChunkStore.PutChunk` | internal/storage/store.go:13-15 | success stores the bytes under their hash unless that hash is already present; failure changes no chunk |
| `Chunks.ChunkStore.GetChunk` | internal/storage/store.go:17-19 | the stored bytes, or an error exactly when the identifier is absent |
| `Chunks.PutAllKeeps` | internal/storage/store.go:57-81 | puts never change or remove stored chunks and keep every chunk under its own hash |
| `FsStore.FSChunkStore.PutChunk` | internal/storage/store.go:58-81 | with any fault the directory goes through the modelled steps; failure changes no chunk, success adds this one, a repeated put changes nothing unless stat fails, and then it writes the file again |
| `FsStore.FSChunkStore.HasChunk` | internal/storage/store.go:97-107 | true exactly for chunks the store has; a stat error is reported |
| `FsStore.FSChunkStore.GetChunk` | internal/storage/store.go:84-94 | the bytes of the file with the canonical name; absence and a failing read are different errors |
| `FsStore.FSChunkStore.DeleteChunk` | internal/storage/store.go:110-117 | removes exactly this chunk and keeps the directory sound; a failing removal is an error and changes nothing, a missing chunk is none |
| `FsStore.FSChunkStore.ListChunks` | internal/storage/store.go:121-144 | lists each chunk as often as regular files have a name for it; on a sound directory each chunk that HasChunk reports, once; a directory that cannot be read is an error |
| `FsStore.StepKeepsSound` | internal/storage/store.go:58-81 | every step, fault, partial write, crash or deletion keeps: files whose name parses hold bytes hashing to that name |
| `FsStore.RunKeepsSound` | internal/storage/store.go:58-81 | the same after any sequence of steps and crashes |
| `FsStore.StepRefines` | internal/storage/store.go:58-81 | every step of a put is, for the chunks seen, one atomic insertion (the rename) or nothing |
| `FsStore.RunRefines` | internal/storage/store.go:58-117 | any run refines the run of the abstract store operations |
| `FsStore.ChunksSurvive` | internal/storage/store.go:58-81 | a stored chunk keeps its bytes through every run of steps, faults and crashes that does not delete it and has no stat error |
| `FsStore.ChunksKeepHash` | internal/storage/store.go:63-81 | with stat errors, which make a put write a chunk that is present again: a stored chunk that is not deleted is always there with its own hash, so with its bytes or a collision |
| `FsStore.ListedIffHas` | internal/storage/store.go:97-144 | on an arbitrary directory every chunk that HasChunk reports is listed once and nothing else is, if and only if every name that parses is the lower-case name of its chunk |
| `Merkle.MerkleRootForChunks` | internal/storage/merkle.go:15-55 | error exactly for no chunks; one chunk is its own root, two are hashed left before right, and a longer list is split at the largest power of two below its length, left root hashed first |
| `Merkle.HashLevel` | internal/storage/merkle.go:35-49 | parent j is the hash of children 2j and 2j + 1 in this order; an odd last node is promoted |
| `Merkle.LevelUpKeepsRoot` | internal/storage/merkle.go:32-52 | one level of hashing never changes the root of the tree split at the largest power of two below the length |
| `Merkle.SplitPointIsPowerOfTwo` | internal/storage/merkle.go:8-14 | the split point is the largest power of two below n, as in section 2.1 of RFC 6962 |
| `Merkle.EqualRootsCollide` | internal/storage/merkle.go:42-48 | from two different lists of equal length with equal roots two different byte strings with equal hash are computed |
| `Readers.Reader.Read` | internal/storage/chunker.go:40-41 | a read delivers a prefix of what is left, possibly short or empty, and reports EOF only when nothing is left |
| `Readers.ReadFull` | internal/storage/chunker.go:40-61 | the buffer, the outcome and the reads left are a function of the coming reads: full, partial or no buffer by how many bytes were left, an error only if one comes before the buffer is full; an error that comes with the last byte needed is dropped |
| `Files.StoreFromReader` | internal/storage/chunker.go:26-77 | metadata and stored blocks depend only on the bytes and the chunk size, for every way the reader splits its reads; it is an error exactly if a read or a put fails, and then a first part of the blocks is stored |
| `Files.BlocksShape` | internal/storage/chunker.go:40-74 | the blocks join to the data, all but the last are full, none is empty, there are ceil(n / chunkSize) |
| `Files.BuildFileMetaFromReader` | internal/storage/filemeta.go:23-56 | an error exactly without a store, for empty input, or if a read or a put fails; otherwise metadata of the blocks in order: number, hash and size of each, total size, and the Merkle root of the hashes in this order |
| `Files.SizesAddUp` | internal/storage/filemeta.go:39-44 | the sizes of the chunks add up to the number of bytes |
| `Files.FileRootBinds` | internal/storage/filemeta.go:39-55 | different files cut alike into equally many chunks with equal roots give an explicit hash collision |
| `Files.DifferentBlocksCollide` | internal/storage/filemeta.go:39-49 | different block lists with equal identifiers give an explicit hash collision |
| `Files.Download` | internal/dht/service.go:553-596 | succeeds exactly if every chunk arrives, hashes to its listed identifier and is written; only verified bytes ever reach the file |
| `Files.DownloadRestores` | internal/dht/service.go:567-585 | a successful download against the metadata of some bytes restores exactly these bytes or gives a hash collision |
| `ReedSolomon.CodeMeetsContract` | internal/storage/erasure.go:43-46 | for every k and m with k + m <= 256 the Reed-Solomon code over 256 elements meets the contract that is assumed of the library: systematic parity, recovery from any k shards, refusal of fewer |
| `ReedSolomon.CodeRecovers` | internal/storage/erasure.go:131-136 | any k present shards of an encoding, in whatever positions, determine all shards, since each byte is a value of one polynomial with k coefficients |
| `ReedSolomon.PresentCounts` | internal/storage/erasure.go:91-95 | the shards counted as present are the positions that hold one |
| `Erasure.CodeIsTrusted` | internal/storage/erasure.go:20-32 | for all parameters that Validate accepts that code meets the contract, so no theorem about shards rests on a hypothesis that cannot be met |
| `Erasure.EncodeToShards` | internal/storage/erasure.go:37-89 | succeeds exactly for valid parameters and gives all shards in equal size, the data shards joining to the data and its padding, followed by their parity; empty data gives empty shards |
| `Erasure.FillShard` | internal/storage/erasure.go:63-76 | one data shard: slice bounds hold also when the shard is partly or wholly padding |
| `Erasure.DataShardsJoin` | internal/storage/erasure.go:58-76 | the data shards join to the data plus k*ceil(n/k) - n bytes, fewer than k, all zero |
| `Erasure.JoinAndTrim` | internal/storage/erasure.go:138-154 | joining and trimming to the original size undoes the split |
| `Erasure.CommonLength` | internal/storage/erasure.go:116-129 | fails exactly when no shard is present or two present shards differ in length |
| `Erasure.ReconstructFromShards` | internal/storage/erasure.go:96-155 | whatever data the remaining shards suffice for is returned; too few shards, a wrong count, bad parameters or a negative size give an error |
| `Erasure.SufficientRecovers` | internal/storage/erasure.go:131-154 | enough unaltered shards pass the length check and recover to shards that join to the data |
| `EcFiles.EncodeChunkWithEC` | internal/storage/ec_chunk.go:19-43 | an error exactly without a store, for bad parameters, or if a put fails; otherwise the layout lists the hash of every shard by position, and every shard is stored |
| `EcFiles.DecodeChunkWithEC` | internal/storage/ec_chunk.go:51-80 | unloadable positions count as missing; the data comes back whenever the loaded positions suffice |
| `EcFiles.BuildECFileMetaFromReader` | internal/storage/ec_filemeta.go:33-90 | an error exactly for bad arguments or if a read or a put fails; otherwise one chunk for every read that delivers bytes, for every way the reader splits its reads, also bytes together with EOF; the pieces join to the input, the size is the number of bytes read, one layout each, all shards stored |
| `EcFiles.PlainCutIsBlocks` | internal/storage/ec_filemeta.go:58-80 | a reader that always fills the buffer is cut into full blocks and a last shorter one |
| `EcFiles.ReconstructFileFromECMeta` | internal/storage/ec_filemeta.go:98-125 | writes back exactly the bytes of the pieces whenever every chunk is recoverable, and fails when a non-empty chunk loads fewer than DataShards positions |
| `EcFiles.RecoverableByPosition` | internal/storage/ec_chunk.go:45-50 | after losing identifiers a chunk is recoverable if and only if at least DataShards positions survive, equal shards counted per position |
| `EcFiles.SurvivingCounts` | internal/storage/ec_chunk.go:45-50 | the positions counted as surviving are those whose identifier is not lost |
| `EcFiles.StoredFileIsIntact` | internal/storage/ec_filemeta.go:92-97 | a stored file that lost identifiers is intact if and only if every chunk keeps DataShards positions, or a shard at a named position collides with stored bytes |
| `EcFiles.StoreLoseReconstruct` | internal/storage/ec_filemeta.go:33-125 | store a file, lose any identifiers, reconstruct: succeeds if and only if every chunk keeps DataShards positions, and then gives back the bytes, unless a shard collides with stored bytes |
| `EcFiles.StoreLoseReconstructWithCode` | internal/storage/ec_filemeta.go:33-125 | the same round trip with the Reed-Solomon code, nothing assumed of a library |
| `EcFiles.AllShardsAreStored` | internal/storage/ec_chunk.go:29-36 | storing a file leaves every shard of every chunk in the store |
| `Correlation.StepKeepsInv` | internal/dht/service.go:57-111 | every register, send outcome, timeout, take, receive, channel send and close keeps the channel discipline |
| `Correlation.RunKeepsInv` | internal/dht/service.go:94-206 | the same over every interleaving of callers and read loop with arbitrary arriving messages |
| `Correlation.CorrelationIsSafe` | internal/dht/service.go:57-111 | no send on a closed or full channel, no double close; a call returns only a response to its own identifier, never nil, and leaves no pending entry |
| `Correlation.ReadLoopNeverStuck` | internal/dht/service.go:105-111 | holding a channel, the read loop can always send and close at once |
| `Correlation.CallerNeverStuck` | internal/dht/service.go:173-206 | every call that has not returned has a step of its own |
| `Correlation.CallsReturnForAReason` | internal/dht/service.go:173-206 | in every run a call gives up only after its send failed or its timeout fired, and returns a response only if that response arrived |
| `Correlation.TakenIsReceived` | internal/dht/service.go:179-198 | a waiting call whose entry was taken can receive, and returns with what is in its channel |
| `Correlation.DeliveredIsReceived` | internal/dht/service.go:105-198 | a response that arrives for a waiting call is taken, sent, closed and received: the call returns with this message |
| `Correlation.CallCanComplete` | internal/dht/service.go:150-198 | whenever the read loop is idle, a fresh call that is sent and answered returns with its answer |
| `Correlation.CallCanGiveUp` | internal/dht/service.go:173-206 | after a failed send or a timeout a call takes back its entry, closes its channel and returns |
| `Correlation.Service.RegisterPending` | internal/dht/service.go:57-65 | registers a new one-slot channel under a fresh identifier, as the machine step |
| `Correlation.Service.ReadMessage` | internal/dht/service.go:94-112 | delivers and closes exactly if a response arrives whose identifier is pending; otherwise nothing changes |
| `Correlation.DeliveryWorks` | internal/dht/service.go:105-111 | taking, sending and closing without interruption is a run of the machine that ends with the response in a closed channel |
| `Node.DhtNode.HandleRPC` | internal/dht/node.go:159-475 | state and reply of every branch, including a failing store write and a missing store |
| `Node.DhtNode.HandleDiscovery` | internal/dht/node.go:160-257 | the routing branches: PING, PONG, FIND_NODE, NODES |
| `Node.DhtNode.HandleStoreChunk` | internal/dht/node.go:260-305 | STORE_CHUNK with its four outcomes |
| `Node.DhtNode.AddFileProvider` | internal/dht/node.go:478-490 | appends a provider unless one with this identifier and address is there |
| `Node.MessageKeepsWellFormed` | internal/dht/node.go:160-257 | no message can break the routing table |
| `Node.CorrelatedRequestsAreAnswered` | internal/dht/node.go:260-463 | each of the four correlated requests gets one answer of its own type echoing its identifier, with this node's identifier and listening address |
| `Node.PingIsAnswered` | internal/dht/node.go:160-182 | a PING, and nothing else, is answered by a PONG with this node's identifier and listening address |
| `Node.StoreIsAccepted` | internal/dht/node.go:260-305 | STORE_CHUNK succeeds exactly for non-empty data on a node with a store whose write, if needed, works; then the answered identifier is in the store, otherwise nothing changed |
| `Node.ChunkAnswerIsExact` | internal/dht/node.go:307-368 | GET_CHUNK succeeds exactly for the hex form of an identifier in the store and gives its bytes |
| `Node.MetaAnswerIsExact` | internal/dht/node.go:427-463 | GET_FILE_META succeeds exactly for roots whose metadata is recorded and gives it |
| `Node.AnswersEndExchanges` | internal/dht/node.go:183-257 | answers are never answered, and every reply is an answer |
| `Node.FindNodeIsAnswered` | internal/dht/node.go:200-230 | the answer lists exactly the K contacts of the table closest to the target and never the node itself; no target, no answer |
| `Node.RecordsAccumulate` | internal/dht/node.go:478-500 | recording twice is recording once; records are never dropped, reordered or doubled |
| `Node.AllRemembered` | internal/dht/node.go:159-475 | whatever messages arrive: identity and metadata stay, stored chunks keep their bytes, and lists of providers only grow at the end |
| `Node.RecordsAreExact` | internal/dht/node.go:371-394 | after any messages a node records exactly the providers it had before and those that a message announced, each under the address of its announcement |
| `Node.NewRecordIsDated` | internal/dht/node.go:385-392 | a new provider is appended with the time of its announcement |
| `Node.AnnouncedIsReported` | internal/dht/node.go:371-424 | after any messages the answer to GET_FILE_PROVIDERS names exactly the providers recorded before and those announced meanwhile, under the NodeAddr of the announcement if it has one, else under the address it was received from |
| `Node.StoredIsFetched` | internal/dht/node.go:260-368 | a chunk whose STORE_CHUNK was answered without error is, after any further messages, fetched under the answered identifier, or a hash collision is given |
| `Node.RecordedMetaIsReported` | internal/dht/node.go:427-463 | metadata that a node recorded is, after any messages, the answer to GET_FILE_META for its root |
| `Discovery.MentionedAreLearned` | internal/dht/node.go:160-257 | after PING, PONG, FIND_NODE or NODES every bucket holds the first K distinct identifiers of: the sender, the listed contacts from last to first, the old ones |
| `Discovery.AddressesAreGiven` | internal/dht/node.go:160-257 | every contact has an address its bucket had for it, the message lists for it, or, for the sender, the NodeAddr of the message or else the address it came from |
| `Discovery.SenderIsLearned` | internal/dht/node.go:160-257 | the sender of such a message is afterwards at the front of its bucket, with the last clock reading and, if it was not named before, its own address |
| `NetworkSteps.StepKeepsInv` | internal/dht/service.go:464-491 | every step of uploads, clients, deliveries and losses keeps the invariant of the network |
| `NetworkSteps.RegisterMetaStep` | internal/dht/service.go:469-475 | metadata is recorded only after all its chunks are stored |
| `NetworkSteps.AnnounceSelfStep` | internal/dht/service.go:294-302 | a node lists itself only for metadata it holds |
| `NetworkSteps.SendRecordStep` | internal/dht/service.go:316-341 | provider records name their sender, which holds the metadata |
| `NetworkSteps.HandleStep` | internal/dht/service.go:114-145 | handling a message and sending its reply keeps the invariant |
| `NetworkSteps.InterceptStep` | internal/dht/service.go:103-111 | handing an answer to a waiting caller keeps the invariant |
| `NetworkSafety.ProvidersAreBacked` | internal/dht/service.go:294-341 | in every run, every provider record kept, in flight or told to a client for the root it asked about names a node with genuine metadata and all chunks |
| `NetworkSafety.ContactsAreReal` | internal/dht/node.go:160-257 | in every run tables stay well formed and only real nodes occur in tables and NODES messages |
| `NetworkSafety.BackedNodeServesFile` | internal/dht/service.go:553-596 | a backed provider answers metadata and chunk requests, in states grown in between, so that the download succeeds with the original bytes or a hash collision |
| `NetworkSafety.RunKeepsNode` | internal/dht/service.go:464-491 | no run of the network makes a node lose stored bytes, metadata roots or provider records |
| `NetworkSafety.BackedProviderServesLater` | internal/dht/service.go:553-596 | once backed, a provider serves the file ever after: the metadata request and each chunk request may come at any later moments of the run, with uploads, messages and losses in between |
| `NetworkSafety.DeliveriesComeToRest` | internal/dht/service.go:94-145 | without new sends every schedule of deliveries and losses ends, after at most two steps for each message in flight |
| `NetworkSafety.RecordsCarryNoAddress` | internal/dht/service.go:316-341 | in every run provider records in flight carry no address of their own, so others record a provider under the connection address they saw |
| `NetworkProgress.AnswerTellsAll` | internal/dht/service.go:348-397 | an answer without error to a peer's own provider question tells the peer every provider it lists |
| `NetworkProgress.RequestCanBeAnswered` | internal/dht/service.go:211-262 | a question for metadata or a chunk can reach its provider, whose answer comes back |
| `NetworkProgress.FileCanBeStored` | internal/dht/service.go:464-491 | from every good state a peer with a store can store a file: it ends up backing the root, with its own provider record |
| `NetworkProgress.ProvidersCanBeAsked` | internal/dht/service.go:348-397 | a client can ask any node and is told every provider that the node records |
| `NetworkProgress.StoredFileCanBeFound` | internal/dht/service.go:294-397 | from every reachable state, with anything else in flight, there is a run in which a peer stores a file, announces it to a node, and a client that asks this node is told the peer, which backs the root |
| `IterativeLookup.Lookup` | internal/dht/lookup.go:198-264 | at most five rounds of at most three queries; a round is queried only if the closest contact changed, and the lookup stops early only for a stated reason; over an unchanged table it runs one round at most; the result is exactly what the table then holds closest |
| `IterativeLookup.UnchangedTableOneRound` | internal/dht/lookup.go:218-224 | over a table that does not change a lookup queries one round at most |
| `IterativeLookup.PickUnqueried` | internal/dht/lookup.go:227-236 | the first three contacts whose address was not queried in an earlier round |
| `IterativeLookup.SelectionIsNew` | internal/dht/lookup.go:227-241 | selected addresses are new, and none is selected only if none is new |
| `IterativeLookup.SelectionIsNearest` | internal/dht/lookup.go:226-236 | a new contact that is passed over is farther than all three selected |
| `IterativeLookup.QueriedOnlyOnce` | internal/dht/lookup.go:203-245 | no address is queried in two different rounds |
| `IterativeLookup.RoundRepeatsAddress` | internal/dht/lookup.go:228-245 | one round queries an address twice if and only if two contacts of its shortlist share an address that is new, the later one with fewer than three new contacts in front of it |
| `IterativeLookup.LookupRepeatsAddress` | internal/dht/lookup.go:203-250 | over a whole lookup some address is queried twice if and only if this happens in one of its rounds |
| `IterativeLookup.SameAddressInOneRound` | internal/dht/lookup.go:228-245 | it happens: a table with two contacts under one address makes a first round that queries the address twice |
| `Replicas.ReplicateFileChunks` | internal/dht/service.go:621-697 | errors exactly without metadata or store; otherwise each local chunk is placed on the peers that the lookup of its key ended with |
| `Replicas.ReplicateChunk` | internal/dht/service.go:659-690 | the replicas are on peers whose store call succeeded, as many as needed or as there are such peers |
| `Replicas.PlacementIsSound` | internal/dht/service.go:659-690 | in order of distance, on distinct peers that are never this node by identifier or address and whose store call succeeded; min(replicaCount - 1, number of such peers) |
| `Replicas.PlacementIsNearest` | internal/dht/service.go:659-690 | a working peer without replica is farther than all replicas, and then there are replicaCount - 1 of them |

## Left out

- TCP and TLS transport, handshakes, the length-prefixed JSON codec, command-line program, logging: plumbing around the modelled messages.
- SHA-256: library code behind a parameter.
- The Reed-Solomon library: its code is not part of this model. That it meets the contract is a hypothesis of the theorems about any library; `ReedSolomon.Code` meets it by proof.
- sort.Slice, bufio and io.ReadFull: library code, modelled by what they promise; the insertion sort stands for any sort, which `Geometry.ClosestIsCanonical` justifies.
- Correlation: interleavings are steps on values, each step one critical section or channel operation; the Service object covers uninterrupted sequences of them, and memory-model effects are not captured.
- Correlation and the two switches of message handling: type checks the code does not make are not claimed; a response of the wrong type is delivered to the caller of its identifier.
- Network: an address resolves to whichever node a step names, which covers every address book; timeouts of the provider question are covered by deliveries that find nobody waiting.
- Network: message timestamps, and provider records from a direct call of AnnounceFile outside StoreFileLocalAndAnnounce.
- Real time and durations: the clock is any sequence of readings and a timeout may fire at any moment; `NetworkSafety.DeliveriesComeToRest` therefore bounds deliveries, not time.
- Lookup convergence to the globally closest nodes: buckets evict, and the loop stops when the closest contact is unchanged; the code does not promise it.
- Equal roots of files with different chunk counts: nothing is claimed, the tree has no leaf and node prefixes.
- Erasure.ECParams: unbounded integers; a sum of shard counts beyond 64 bits is not modelled.
- FsStore: loss of written data in the operating system's cache, directories or special files under the name of a chunk, and two puts at once sharing a temporary file.
- Chunks.ChunkStore.GetChunk: fails exactly for absent chunks, because a failing read is one position fewer or a failed request to its callers; `FsStore.FSChunkStore.GetChunk` has it.
- Chunks.ChunkStore.PutChunk: content already present is never written again; the stat error that makes the code do so is in `FsStore.FSChunkStore.PutChunk`.
- FindFileProviders and DownloadFile: merging and deduplicating the answers of several peers and picking the first provider; each answer is covered by `NetworkSafety.ProvidersAreBacked`.
- AnnounceFile: which peers it sends records to (those a lookup of the root's key returns); a step of the network may name any peer.
- Service.StoreChunkRemote: the checks on the returned chunk identifier; a remote store is a success or a failure to `Replicas`.
- README features that the code lacks, such as Merkle proofs and FIND_VALUE, and the commented-out lookup.
