# A verified model of the object store

The store keeps objects as ordered lists of chunks. A storage node keeps chunks in fixed slots of
one flat file; metadata nodes keep the object and chunk records, divide them among themselves by
consistent hashing and hand them over when a node joins; an API gateway uploads, downloads and
deletes objects; a replication service brings every chunk to three replicas. This project models
these parts and proves what they promise, alone and together.

The modules, bottom up:

- `Base`, `Crc32` - integer widths, results, and the CRC-32/ISO-HDLC checksum with its rolling form.
- `HeaderCodec`, `FlatFile`, `SlotImage`, `SlotStore`, `ChunkFile`, `CrashRecovery` - the slot store:
  bytes of the file, what a recovery scan sees in them, the store as a value, the store as a class
  over a file whose calls may be short or fail, and what is found after a crash.
- `HashRing`, `Membership` - the ring, its two ways to compute ownership, and how a manager's ring
  follows the live sets that gossip reports.
- `Metadata`, `MetadataInvariants`, `MetadataMeaning`, `MetadataStore` - the metadata operations as
  functions, what they keep, what they mean to a reader, and the class that runs them in memory and
  saves by writing and renaming a file.
- `ClusterService`, `Migration` - a metadata node's handlers with the chunk index, and a joining node
  that pulls what it owns from its peers.
- `Chunking`, `Cluster`, `Calls`, `Gateway` - cutting a body into chunks, the cluster as gateway and
  replicator see it, the remote calls, and the gateway's handlers as loops over those calls.
- `Replication` - the replication cycle, and the number of missing replicas going down to zero.
- `Protocol`, `ProtocolSteps`, `ProtocolAlone`, `ProtocolContents`, `ProtocolUploads`,
  `ProtocolDurability`, `ProtocolPlacement` - uploads, downloads, deletions and replications
  interleaved call by call in any order, what each step does and what a process comes to when it is
  left alone, and what holds over all runs.

Conventions. A method of a class is proved against a function of the old state, and the properties
are lemmas about that function. Failing I/O and lost calls are nondeterministic choices; a constant
(`reliable`, `metadataUp`, `up`) rules them out where a property needs that. Errors are values of
`Base.Result`; the kinds are those of `std::io::Error`, and where a caller only looks at success or
failure a lost or refused call is `Io`. Lemmas are marked `{:induction false}` throughout: every proof
by induction spells out its recursive call.

Where the code does not do what is expected of it, the model follows the code:

- The wrap-around range of `hash_ring.rs:85` ends at `u64::MAX` exclusively, so no node's ranges
  contain the hash `u64::MAX` unless a vnode sits there, and a vnode there makes the first vnode's
  owner claim everything (`HashRing.RangesExactly`, `HashRing.WhenRangesAreSound`).
- Colliding vnode hashes make the ring depend on history (`Membership.CollisionBreaksHistory`), and
  nothing else does (`Membership.HistoryIndependentIff`).
- A recovery that rejects a torn chunk leaves its header on the free slot, and a crash in a later put
  to that slot can bring the chunk back (`CrashRecovery.LeftoverComesBack`, `CrashRecovery.CrashInPutIff`).
- A delete that fails on I/O loses its slot (`ChunkFile.ChunkStore.DeleteChunk`). A restart frees it if
  any byte of the zero header was written; if none was, the deleted chunk is back, and when the id has
  been stored again in a lower slot, its old bytes replace the new ones and the lower slot is lost
  (`CrashRecovery.RestartAfterFailedDelete`, `CrashRecovery.StaleBytesReturn`).
- A failed save leaves a chunk listed in memory that the chunk index does not know
  (`ClusterService.MetadataClusterService.ForwardConfirmChunk`).
- The JSON upload leaves `total_size` at 0, and returns without a rollback when it cannot connect to
  the storage node of a chunk, so that the object stays behind (`Gateway.ApiGateway.UploadBatch`).
- The public `get_object` takes the lock twice, once for the chunk list and once for the records,
  although its comment speaks of a single lock; `Protocol` has the two as separate steps.
- A PUT whose object is deleted under it can confirm its chunk into the object that another PUT has
  created since under the same name (`ProtocolUploads.ForeignChunksCanIntrude`,
  `ProtocolUploads.WholeIffNoIntrusion`).
- A PUT that failed rolls back by name, and so removes whatever object has that name by then, also one
  that another PUT has completed (`ProtocolDurability.RollbackTakesAnothersObject`,
  `ProtocolDurability.StandsIffNoLeftover`).

## Model

| member | source | states |
|---|---|---|
| Crc32.CheckValue | storage-node/src/chunk_store.rs:68-72 | the checksum is CRC-32/ISO-HDLC: it has that algorithm's published check value |
| Crc32.ShiftBitIsLinear | storage-node/src/chunk_store.rs:68-72 | one step of the register is linear over the bits |
| Crc32.FoldByteIsInjective | storage-node/src/chunk_store.rs:68-72 | after any byte, registers are equal if and only if they were before it |
| Crc32.OneByteShows | storage-node/src/chunk_store.rs:68-72 | data that differs in one byte has another checksum, wherever the byte is and whatever its values are |
| Crc32.FoldLeftAppend | api-gateway/src/handlers.rs:1059-1119 | feeding a checksum two pieces in a row is feeding it their concatenation |
| Crc32.Hasher.Update | api-gateway/src/handlers.rs:1070 | a rolling hasher stands for all bytes fed to it |
| Crc32.Hasher.Finalize | api-gateway/src/handlers.rs:1119 | its result is the checksum of everything fed to it, however it was split |
| HeaderCodec.LeRoundTrip | storage-node/src/chunk_store.rs:45-66 | little-endian encoding is inverted by decoding for every value that fits the width |
| HeaderCodec.LeCanonical | storage-node/src/chunk_store.rs:54-66 | every byte string is the encoding of the value it decodes to |
| HeaderCodec.LeByteAt | storage-node/src/chunk_store.rs:45-66 | byte number i of an encoded value is its i-th digit to the base 256, the lowest first |
| HeaderCodec.HeaderRoundTrip | storage-node/src/chunk_store.rs:45-66 | every header, over all u32 and u64 field values, survives encoding and decoding |
| HeaderCodec.BytesRoundTrip | storage-node/src/chunk_store.rs:45-66 | 24 bytes survive decoding and encoding if and only if the four padding bytes are zero |
| HeaderCodec.ZeroHeaderIsBlank | storage-node/src/chunk_store.rs:378-381 | a zeroed header does not carry the magic number |
| FlatFile.WriteAllAt | storage-node/src/chunk_store.rs:76-89 | the short-write loop ends, writes exactly the buffer on success, and some prefix of it on failure |
| FlatFile.ReadExactAt | storage-node/src/chunk_store.rs:93-107 | the short-read loop ends and returns exactly the bytes asked for, or fails at the end of the file |
| SlotImage.ScanFree | storage-node/src/chunk_store.rs:409-450 | the free list after a recovery scan is exactly the rejected slots, ascending |
| SlotImage.ScanIndex | storage-node/src/chunk_store.rs:409-450 | an id is indexed if and only if some slot is accepted under it, and at the highest such slot |
| SlotImage.OtherSlotsUnchanged | storage-node/src/chunk_store.rs:110-144 | slot regions are disjoint: a write inside one slot changes neither bytes nor view of another |
| SlotImage.WrittenChunkIsSeen | storage-node/src/chunk_store.rs:110-144 | header and payload written to a slot are seen there as that chunk, whatever the slot held |
| SlotImage.ErasedSlotIsBlank | storage-node/src/chunk_store.rs:376-386 | a slot with a zeroed header is seen as blank, and no other slot changes |
| SlotImage.TornEraseIsBlank | storage-node/src/chunk_store.rs:376-386 | however little of the zero header gets written, the slot is as it was or blank |
| SlotImage.ScanCount | storage-node/src/chunk_store.rs:409-450 | a scan accounts for every slot if and only if no id is accepted twice |
| ChunkFile.WriteChunkAt | storage-node/src/chunk_store.rs:110-144 | on success the slot holds header and payload and, if asked, the file is synced; on failure only this slot differs |
| ChunkFile.ReadChunk | storage-node/src/chunk_store.rs:166-195 | returns the header and exactly the announced payload of a slot that shows a chunk |
| ChunkFile.ChunkStore.Open | storage-node/src/chunk_store.rs:231-255 | the file has the configured length, every slot starts free, the index is empty |
| ChunkFile.ChunkStore.FindSlot | storage-node/src/chunk_store.rs:260-274 | pops the top of the free stack, if any |
| ChunkFile.ChunkStore.ShouldFsyncWrite | storage-node/src/chunk_store.rs:464-472 | counts the write, wrapping around, and asks for a sync if and only if the count is a multiple of the period |
| ChunkFile.ChunkStore.PutChunk | storage-node/src/chunk_store.rs:288-327 | without faults it succeeds if and only if the id is new and a slot is free; success is the specified put; any failure leaves index and free slots as they were; the slot ledger is kept in every case, and so is the bound on the durability lag; only a chunk that is about to be written must fit the slot, as the code asserts |
| ChunkFile.ChunkStore.GetChunk | storage-node/src/chunk_store.rs:332-368 | returns only bytes that the file holds after a header with the magic number, of the announced length and checksum; for a slot that shows a chunk these are the stored bytes; on a consistent store without faults it succeeds if and only if the id is indexed |
| ChunkFile.ChunkStore.DeleteChunk | storage-node/src/chunk_store.rs:373-391 | success is the specified delete, a missing id is fine, and a failure removes the index entry, loses exactly that one slot, and leaves it blank or as it was |
| ChunkFile.ChunkStore.ScanSlot | storage-node/src/chunk_store.rs:411-447 | decides a slot as the scan function does, in fast and in slow mode |
| ChunkFile.ChunkStore.RecoverIndex | storage-node/src/chunk_store.rs:396-454 | rebuilds index and free stack as the scan function of the bytes, and a sound ledger whatever the bytes are, even when a read fails halfway; every slot is then indexed or free if and only if no two accepted slots share an id |
| ChunkFile.NextCount | storage-node/src/chunk_store.rs:464-472 | the next value of the wrapping counter is one further from the last sync, or a multiple of the period |
| SlotStore.PutKeepsLedger | storage-node/src/chunk_store.rs:288-327 | a put keeps indexed and free slots in range, distinct and disjoint |
| SlotStore.PutRefinesMap | storage-node/src/chunk_store.rs:288-327 | a put is a map update: the id reads back with its bytes and no other id is disturbed |
| SlotStore.DeleteKeepsLedger | storage-node/src/chunk_store.rs:373-391 | so does a delete |
| SlotStore.DeleteRefinesMap | storage-node/src/chunk_store.rs:373-391 | a delete removes one id from the map and disturbs no other |
| SlotStore.PutKeepsConsistent | storage-node/src/chunk_store.rs:288-327 | a slot is recoverable if and only if the index points at it under its header id: kept by put |
| SlotStore.DeleteKeepsConsistent | storage-node/src/chunk_store.rs:373-391 | the same, kept by delete |
| SlotStore.RecoveryRoundTrip | storage-node/src/chunk_store.rs:396-454 | a scan of a consistent store's slots gives back its index and, as a set, its free slots |
| SlotStore.RunRefinesMap | storage-node/src/chunk_store.rs:288-391 | every run of acknowledged puts and deletes means the same run on a plain map |
| SlotStore.RecoveryAfterRun | storage-node/src/chunk_store.rs:396-454 | after any such run from a consistent store, recovery rebuilds exactly index and free slots |
| SlotStore.LagAfterPut | storage-node/src/chunk_store.rs:316-326 | an acknowledged put keeps the number of puts since the last sync below the period |
| SlotStore.LagAfterDelete | storage-node/src/chunk_store.rs:382-386 | so does an acknowledged delete |
| SlotStore.DurableRecovery | storage-node/src/chunk_store.rs:464-472 | what a power failure keeps is the store of the last sync; fewer puts than the period are missing, and none at all with a sync per write and per delete |
| SlotStore.ScanKeepsLedger | storage-node/src/chunk_store.rs:409-450 | a scan, finished or not, of any bytes ends with a sound slot ledger |
| SlotStore.RecoveredIsConsistent | storage-node/src/chunk_store.rs:409-450 | recovery ends consistent if and only if no two accepted slots carry the same id |
| SlotStore.StepMends | storage-node/src/chunk_store.rs:288-391 | with a slot lost, puts and deletes go as they would if it were blank and last on the free stack, and never touch it |
| CrashRecovery.Construct | storage-node/src/main.rs:43-56 | a storage node starts empty on a new file; on an existing one of any length it starts with the index recovered from the bytes as cut or zero-extended to the configured length |
| CrashRecovery.CleanRestart | storage-node/src/main.rs:43-56 | a restart after a clean stop finds a consistent store with the same chunks |
| CrashRecovery.CrashInPutExactly | storage-node/src/chunk_store.rs:110-144 | what recovery finds after a crash inside a put, in every case: header landed or not, payload torn in any way, and any leftover header on the slot, also of an id indexed elsewhere |
| CrashRecovery.CrashInPutIff | storage-node/src/chunk_store.rs:316-326 | whatever image the crash leaves, recovery finds the old map apart from the id being put - if and only if the slot about to be written does not carry, before the put, the header of another chunk that some payload of its length matches, not stored in a higher slot or with those bytes |
| CrashRecovery.CrashInPut | storage-node/src/chunk_store.rs:288-327 | with no leftover headers on free slots: the old map, or the old map with the new id and bytes that match the header's checksum |
| CrashRecovery.LeftoverComesBack | storage-node/src/chunk_store.rs:432-446 | a store with such a leftover, a put and a crash in it, after which recovery finds a chunk that the store did not have |
| CrashRecovery.CrashInDelete | storage-node/src/chunk_store.rs:376-386 | a crash inside a delete leaves the map with or without that id, all other chunks as they were |
| CrashRecovery.RestartAfterFailedDelete | storage-node/src/chunk_store.rs:373-454 | after a failed delete and any acknowledged operations, memory is as after a successful one; a restart finds the same map if and only if the header was erased, or the id is stored again in a higher slot or with the same bytes, and otherwise the deleted bytes under that id |
| CrashRecovery.StaleBytesReturn | storage-node/src/chunk_store.rs:409-450 | two slots after a failed delete and a new put of the id: a restart finds the old bytes, and a slot is lost |
| HashRing.SuccessorIsNearest | storage-metadata/src/hash_ring.rs:37-48 | the looked-up vnode is the one at the least clockwise distance, and the only one |
| HashRing.OwnerIsNearest | storage-metadata/src/hash_ring.rs:37-48 | a key's owner is the node at the position nearest clockwise from the key's xxh3 hash, and there is none only on an empty ring |
| HashRing.ClockwiseLeads | storage-metadata/src/hash_ring.rs:37-48 | the distance that this is about: so many steps modulo 2^64 lead there |
| HashRing.DecimalIsUnique | storage-metadata/src/hash_ring.rs:22-28 | the numeral used in a label is the one decimal numeral of the number, without leading zeros |
| HashRing.LabelsDiffer | storage-metadata/src/hash_ring.rs:22-28 | no two virtual nodes of a node are named alike |
| HashRing.PositionsOfNode | storage-metadata/src/hash_ring.rs:22-28 | a node added alone has exactly the hashes of its name, "-vnode-" and 0 to 149 in decimal as positions, which are 150 if and only if the hash tells those names apart |
| HashRing.AddMovesOnlyToNewNode | storage-metadata/src/hash_ring.rs:22-28 | after adding a node every key keeps its owner or goes to that node, also when positions collide |
| HashRing.RemoveMovesOnlyOwnKeys | storage-metadata/src/hash_ring.rs:31-33 | after removing a node every key it did not own keeps its owner |
| HashRing.AddThenRemove | storage-metadata/src/hash_ring.rs:22-33 | removing undoes adding if and only if the node was absent and none of its positions was taken |
| HashRing.VnodeRangesExactly | storage-metadata/src/hash_ring.rs:59-91 | the ranges of one vnode against successor lookup, for every hash including `u64::MAX` |
| HashRing.RangesExactly | storage-metadata/src/hash_ring.rs:59-108 | when a hash is in a node's ranges, for every ring, node and hash |
| HashRing.RangesAgreeWithLookup | storage-metadata/src/hash_ring.rs:37-108 | without a vnode at `u64::MAX` the ranges agree with lookup on every hash below `u64::MAX`, and nobody's contain that hash |
| HashRing.WhenRangesAreSound | storage-metadata/src/hash_ring.rs:59-108 | exactly the rings on which both ways to compute ownership agree below `u64::MAX` |
| HashRing.HashRing.AddNode | storage-metadata/src/hash_ring.rs:22-28 | puts the node at its 150 positions, over whatever was there |
| HashRing.HashRing.RemoveNode | storage-metadata/src/hash_ring.rs:31-33 | exactly the entries of every other node stay, with their owners |
| HashRing.HashRing.GetOwnedRanges | storage-metadata/src/hash_ring.rs:59-91 | the loop over the sorted positions collects the ranges that the lemmas are about |
| HashRing.HashRing.Nodes | storage-metadata/src/hash_ring.rs:124-129 | all node ids, each once |
| Membership.RingOfIsUnique | storage-metadata/src/cluster.rs:62-70 | a set of nodes has one ring |
| Membership.TickForgetsHistory | storage-metadata/src/cluster.rs:115-135 | without colliding positions a tick leaves the ring of the live nodes and the manager itself, whatever was on it |
| Membership.RingFollowsLastReport | storage-metadata/src/cluster.rs:98-147 | after any sequence of ticks the ring is that of the last live set and the manager itself |
| Membership.ManagersAgree | storage-metadata/src/cluster.rs:98-147 | two managers with equal last live sets, each with itself, route every key alike whatever they saw before |
| Membership.CollisionBreaksHistory | storage-metadata/src/cluster.rs:115-135 | with one shared position, a join and a leave take a live node's vnode off the ring, exactly if that node has a position of its own |
| Membership.HistoryIndependentIff | storage-metadata/src/cluster.rs:98-147 | over reports of a given set of nodes, equal last live sets leave a manager with equal rings whatever came before - if and only if no two of those nodes, the manager among them, share a position |
| Membership.ClusterManager.constructor | storage-metadata/src/cluster.rs:62-70 | a manager starts with only itself on the ring |
| Membership.ClusterManager.UpdateRing | storage-metadata/src/cluster.rs:115-135 | both loops of a tick, for any order in which the ring's nodes are visited |
| Membership.ClusterManager.Tick | storage-metadata/src/cluster.rs:98-147 | a tick updates the ring, takes the reported addresses and drops the connections of departed peers |
| Membership.ClusterManager.IsLocal | storage-metadata/src/cluster.rs:153-159 | a key is served here if the ring is empty or gives it to this node |
| Membership.ClusterManager.GetOwnerAddr | storage-metadata/src/cluster.rs:163-173 | the owner's address if it is another node and known, and nothing otherwise |
| Metadata.ListsAreDisjoint | storage-metadata/src/metadata_store.rs:368-414 | under the referential invariant two objects list no common chunk |
| MetadataInvariants.PutChunkKeeps | storage-metadata/src/metadata_store.rs:311-344 | kept by put_chunk, also when the object is missing and the chunk stays behind unlisted |
| MetadataInvariants.AllocateChunkKeeps | storage-metadata/src/metadata_store.rs:349-364 | kept by reserving an id |
| MetadataInvariants.ConfirmChunkKeeps | storage-metadata/src/metadata_store.rs:368-414 | kept by confirming a chunk, with every error path |
| MetadataInvariants.DeleteObjectKeeps | storage-metadata/src/metadata_store.rs:298-309 | kept by deleting an object with its chunks |
| MetadataInvariants.DeleteChunkKeeps | storage-metadata/src/metadata_store.rs:427-440 | kept by deleting a chunk, also of a missing object |
| MetadataInvariants.AddChunkReplicaKeeps | storage-metadata/src/metadata_store.rs:500-547 | kept by recording a replica: at most three, all distinct |
| MetadataInvariants.IngestPartitionKeeps | storage-metadata/src/metadata_store.rs:583-596 | kept by ingesting a well-formed fragment whose ids no differently named local object lists |
| MetadataInvariants.RemoveNamedKeeps | storage-metadata/src/metadata_store.rs:600-610 | kept by removing transferred objects |
| MetadataInvariants.ExecKeepsReferential | storage-metadata/src/metadata_store.rs:273-610 | every operation, successful or failing, keeps it: listed chunks exist, are confirmed and name their object, lists are duplicate-free, replicas are one to three and distinct |
| MetadataInvariants.NoSaveNoViewChange | storage-metadata/src/metadata_store.rs:311-440 | an operation that returns without saving leaves every object's checksum, size and chunk records alone, although memory may have changed |
| MetadataInvariants.ConfirmAppendsRecord | storage-metadata/src/metadata_store.rs:368-414 | a confirmed chunk is the new last record of its object and nothing else changes for a reader |
| MetadataInvariants.DeleteUndoesConfirm | storage-metadata/src/metadata_store.rs:427-440 | deleting a chunk right after confirming it leaves what was there before its id was reserved |
| MetadataInvariants.DeleteObjectRemovesView | storage-metadata/src/metadata_store.rs:298-309 | deleting an object removes it and changes no other object |
| MetadataInvariants.AddReplicaExtendsRecord | storage-metadata/src/metadata_store.rs:500-547 | exactly when a replica is accepted, and that it shows as the last node of exactly that chunk's record |
| MetadataMeaning.PutObjectAddsEmpty | storage-metadata/src/metadata_store.rs:273-284 | put_object succeeds if and only if the name is free, and adds an empty object with that checksum |
| MetadataMeaning.UpdateSetsHeader | storage-metadata/src/metadata_store.rs:457-465 | update_object_checksum sets checksum and size of an existing object and leaves its records and all other objects |
| MetadataMeaning.DeleteObjectTakesItsChunks | storage-metadata/src/metadata_store.rs:298-309 | delete_object takes exactly the records of the listed chunks |
| MetadataMeaning.RemoveObjectsRemovesViews | storage-metadata/src/metadata_store.rs:600-610 | remove_objects takes exactly the named objects out of the view |
| MetadataMeaning.AllocateReserves | storage-metadata/src/metadata_store.rs:349-364 | allocate_chunk succeeds if and only if there is a node, returns the drawn node's address, adds one pending record, and no reader sees it |
| MetadataMeaning.PutChunkAppendsRecord | storage-metadata/src/metadata_store.rs:311-344 | put_chunk succeeds if and only if there is a node and the object; the object then gains one last record with the checksum and the drawn node, whose address is returned |
| MetadataMeaning.ConfirmSucceedsIff | storage-metadata/src/metadata_store.rs:368-414 | confirm_chunk succeeds if and only if node and object are there and the id is not confirmed, and otherwise changes nothing |
| MetadataMeaning.DeleteChunkDropsRecord | storage-metadata/src/metadata_store.rs:427-440 | delete_chunk of a listed chunk takes exactly its record out of the object; the others stay in their order |
| MetadataMeaning.RegisterAndDrop | storage-metadata/src/metadata_store.rs:244-249 | registering adds one node with its address, if well-formed, and dropping it again undoes that |
| MetadataMeaning.DropTakesOne | storage-metadata/src/metadata_store.rs:471-479 | dropping takes exactly that node out of the registry |
| MetadataStore.MetadataStore.constructor | storage-metadata/src/metadata_store.rs:174-214 | a start takes over a whole state and begins empty on anything else |
| MetadataStore.Start | storage-metadata/src/metadata_store.rs:174-214 | a file that cannot be read is an error, one that is missing or holds no state is a fresh start, and a whole one is taken over |
| MetadataStore.MetadataStore.Save | storage-metadata/src/metadata_store.rs:219-242 | a killed process or a power failure at any step leaves the old content or the whole new state in the real file, because the sync comes before the rename; the new one is there, and on disk, if and only if the save succeeds |
| MetadataStore.MetadataStore.PutObject | storage-metadata/src/metadata_store.rs:273-284 | result, memory and file of put_object in every case |
| MetadataStore.MetadataStore.DeleteObject | storage-metadata/src/metadata_store.rs:298-309 | the same for delete_object and its loop over the chunks |
| MetadataStore.MetadataStore.PutChunk | storage-metadata/src/metadata_store.rs:311-344 | the same for put_chunk |
| MetadataStore.MetadataStore.AllocateChunk | storage-metadata/src/metadata_store.rs:349-364 | the same for allocate_chunk, which never saves |
| MetadataStore.MetadataStore.ConfirmChunk | storage-metadata/src/metadata_store.rs:368-414 | the same for confirm_chunk |
| MetadataStore.MetadataStore.DeleteChunk | storage-metadata/src/metadata_store.rs:427-440 | the same for delete_chunk |
| MetadataStore.MetadataStore.UpdateObjectChecksum | storage-metadata/src/metadata_store.rs:457-465 | the same for update_object_checksum |
| MetadataStore.MetadataStore.AddChunkReplica | storage-metadata/src/metadata_store.rs:500-547 | the same for add_chunk_replica |
| MetadataStore.MetadataStore.ConstructStorageNode | storage-metadata/src/metadata_store.rs:244-249 | the same for registering a storage node |
| MetadataStore.MetadataStore.DeleteStorageNode | storage-metadata/src/metadata_store.rs:471-479 | the same for dropping a storage node |
| MetadataStore.MetadataStore.IngestPartition | storage-metadata/src/metadata_store.rs:583-596 | the same for ingesting a partition |
| MetadataStore.MetadataStore.RemoveObjects | storage-metadata/src/metadata_store.rs:600-610 | the same for removing objects |
| MetadataStore.ExecKeepsFileCurrent | storage-metadata/src/metadata_store.rs:219-242 | if saves succeed, after every operation the file shows the objects that memory shows |
| MetadataStore.RunKeepsFileCurrent | storage-metadata/src/metadata_store.rs:219-242 | the same at every point of every run |
| MetadataStore.LoadUndoesSave | storage-metadata/src/metadata_store.rs:174-242 | what was saved is loaded again, objects and all chunk records, but for the storage nodes |
| MetadataStore.CrashShowsBeforeOrAfter | storage-metadata/src/metadata_store.rs:174-242 | a killed process or a power failure at any moment of any run leaves a file that loads into a sound state with the objects of before or after the operation under way |
| MetadataStore.StartIsCurrent | storage-metadata/src/metadata_store.rs:174-214 | a start on a saved, a missing or an unreadable file begins with file and memory in accordance |
| ClusterService.ChunkIndex.BulkInsert | storage-metadata/src/chunk_index.rs:36-41 | inserts the entries in order |
| ClusterService.ChunkIndex.RemoveEach | storage-metadata/src/cluster_service.rs:88-117 | removes exactly the given ids |
| ClusterService.ChunkIndex.PopulateFromChunks | storage-metadata/src/chunk_index.rs:50-55 | the insertion loop: exactly the old entries and one for every chunk record, under the name the record carries; with the chunks of a sound store the index agrees with it |
| ClusterService.SameRoute | storage-metadata/src/forwarding.rs:41-57 | with store and index in agreement, chunk-scoped and object-scoped requests reach the same owner |
| ClusterService.NamedAgrees | storage-metadata/src/chunk_index.rs:50-55 | an index that has every chunk of a sound store under its record's name agrees with the store |
| ClusterService.AgreesAfterListing | storage-metadata/src/cluster_service.rs:119-185 | after listing a chunk the index agrees if and only if it has that entry |
| ClusterService.OthersKeepTheirLists | storage-metadata/src/cluster_service.rs:88-117 | why delete_object may clean the index by chunk id: no other object lists those ids |
| ClusterService.CleanupAgreesIff | storage-metadata/src/cluster_service.rs:110-114 | index entries may be dropped at any later time, if and only if no object then lists their chunks |
| ClusterService.MetadataClusterService.ForwardPutObject | storage-metadata/src/cluster_service.rs:34-45 | memory, file and report as put_object has them; agreement is kept |
| ClusterService.MetadataClusterService.ForwardDeleteObject | storage-metadata/src/cluster_service.rs:88-117 | memory, file and report as delete_object has them; the index loses exactly the deleted object's chunks; agreement is kept |
| ClusterService.MetadataClusterService.ForwardPutChunk | storage-metadata/src/cluster_service.rs:119-140 | the same for put_chunk, with exactly the new index entry; agreement is kept unless the save fails, and then if and only if the entry was there already |
| ClusterService.MetadataClusterService.ForwardAllocateChunk | storage-metadata/src/cluster_service.rs:142-157 | the same for allocate_chunk, index untouched; agreement is kept |
| ClusterService.MetadataClusterService.ForwardConfirmChunk | storage-metadata/src/cluster_service.rs:159-185 | the same for confirm_chunk, with exactly the new index entry; agreement is kept unless the save fails, and then if and only if the entry was there already |
| ClusterService.MetadataClusterService.ForwardDeleteChunk | storage-metadata/src/cluster_service.rs:217-234 | the same for delete_chunk, with exactly that entry removed; agreement is kept |
| ClusterService.MetadataClusterService.ForwardAddChunkReplica | storage-metadata/src/cluster_service.rs:236-255 | the same for add_chunk_replica; agreement is kept |
| Migration.ObjectsInHashRanges | storage-metadata/src/metadata_store.rs:561-580 | exactly the objects whose names hash into the ranges, each once, each with the records of its chunks in list order |
| Migration.TransferPartition | storage-metadata/src/cluster_service.rs:357-415 | streams them, each object followed by its chunks |
| Migration.DecodeStream | storage-metadata/src/migration.rs:131-157 | the receiving loop computes the decoding that the lemmas are about |
| Migration.DecodeEntries | storage-metadata/src/migration.rs:131-157 | decoding the stream gives back the sent objects, size reset, and the sent chunks, if those were confirmed |
| Migration.PartitionDecodes | storage-metadata/src/migration.rs:131-157 | so a sound store's stream always decodes to what was sent |
| Migration.SentChunksExactly | storage-metadata/src/metadata_store.rs:561-580 | a sound store sends confirmed, sound records only, and those of every listed chunk |
| Migration.SentIsFragment | storage-metadata/src/metadata_store.rs:561-596 | what a sound store sends is a well-formed fragment |
| Migration.PullOne | storage-metadata/src/migration.rs:105-185 | one pull changes nothing local and adds exactly the peer's objects in the ranges, whole |
| Migration.JoinCollects | storage-metadata/src/migration.rs:70-100 | pulling from all peers collects exactly all their objects in the ranges and keeps the store sound |
| Migration.MigrationIsExact | storage-metadata/src/migration.rs:44-185 | with no vnode at `u64::MAX`, the joiner ends up with exactly the peers' objects that the ring routes to it, but for names hashing to `u64::MAX`, each with the same checksum, chunk order and chunk records |
| Migration.MigrationInventsNothing | storage-metadata/src/migration.rs:44-185 | it has no object that neither it nor a peer had |
| Migration.PullKeepsAgreement | storage-metadata/src/migration.rs:170-177 | bulk-inserting the entries of a pull keeps store and index in agreement |
| Migration.JoinKeepsAgreement | storage-metadata/src/migration.rs:70-185 | and so does pulling from all peers |
| Migration.MigrationManager.PullPartition | storage-metadata/src/migration.rs:105-185 | one pull on store and index: a peer that answers is reached, what it sends is ingested whole and indexed, and a failed pull leaves the index |
| Migration.MigrationManager.PullFromAll | storage-metadata/src/migration.rs:83-99 | the loop over the peers, failures skipped; the index has the entries of exactly the pulls that succeeded |
| Migration.MigrationManager.MigrateOnJoin | storage-metadata/src/migration.rs:44-100 | pulls the owned ranges from every peer, unless the node is alone or owns none; when all peers answer and saving works, the node ends up with exactly the peers' objects that the ring routes to it, and store and index agree |
| Chunking.ChunksFlatten | api-gateway/src/handlers.rs:309-312 | cutting into chunks loses nothing, keeps the order, and gives full chunks but for the last |
| Chunking.CutIsUnique | api-gateway/src/handlers.rs:309-312 | any parts of the right sizes are the chunks of their concatenation |
| Chunking.FullPartsFirst | api-gateway/src/handlers.rs:1078-1117 | full parts flushed so far are the first chunks of the whole body, however it goes on |
| Cluster.OthersStillHold | api-gateway/src/handlers.rs:932-973 | an operation that leaves other objects alone leaves them readable |
| Cluster.RefsInOrder | storage-metadata/src/main.rs:231-322 | a look-up keeps the order of the chunks and of the replicas of each |
| Cluster.TargetsExactly | api-gateway/src/handlers.rs:818-824 | the targets of a deletion are exactly the listed chunks paired with the addresses of their recorded replicas |
| Gateway.ApiGateway.FlushChunk | api-gateway/src/handlers.rs:932-973 | allocate, write, confirm: success appends exactly this piece to what the object holds, failure changes no object; it succeeds if nothing is down, no copy without a record is left, and there are ids |
| Gateway.ApiGateway.Rollback | api-gateway/src/handlers.rs:1101-1106 | the object is gone if the metadata node is reached, and no other object changes |
| Gateway.ApiGateway.UploadBatch | api-gateway/src/handlers.rs:188-429 | success: the object holds the chunks of the data with its checksum; a taken name or too large a body changes nothing; failure leaves nothing or a whole-chunk front; with the metadata node up, a failed upload leaves its object behind if and only if it could not connect to a storage node; a fresh name and an allowed size succeed if nothing is down |
| Gateway.ApiGateway.DrainBuffer | api-gateway/src/handlers.rs:1080-1091 | the drain loop ends with less than a chunk in the buffer, and flushed parts and buffer together are unchanged |
| Gateway.ApiGateway.ReceivePart | api-gateway/src/handlers.rs:1069-1091 | one piece of the body goes through checksum, size limit and buffer |
| Gateway.ApiGateway.ReceiveField | api-gateway/src/handlers.rs:1058-1099 | after the stream all but less than a chunk is flushed, and checksum and size cover the whole body |
| Gateway.ApiGateway.FinishUpload | api-gateway/src/handlers.rs:1108-1133 | the rest becomes the last chunk, then the object gets checksum and size |
| Gateway.ApiGateway.UploadStream | api-gateway/src/handlers.rs:1018-1151 | for every split of the body into pieces and every chunk size above zero: success leaves exactly the chunks that the JSON path would, the checksum of the whole and its length; failure leaves nothing or a whole-chunk front, and nothing if the rollback arrives; a fresh name and an allowed, complete body succeed if nothing is down |
| Gateway.ApiGateway.ReadAny | api-gateway/src/handlers.rs:530-557 | failover: the answer is that of the first replica that can be reached, or of one before it, and there is one if any replica is reachable |
| Gateway.ApiGateway.Download | api-gateway/src/handlers.rs:489-605 | returns the concatenation of what one replica of each chunk has, in list order - so of the pieces the object holds, whichever replicas answer; it succeeds if every chunk has a reachable replica |
| Gateway.ApiGateway.DownloadStream | api-gateway/src/handlers.rs:1195-1224 | with the metadata node up every readable object gets an answer: a front of the chunks, each from a replica, that ends at a chunk without a reachable replica and otherwise is all of them |
| Gateway.ApiGateway.EraseCopies | api-gateway/src/handlers.rs:828-867 | every target whose node answers is erased and no other copy is; the count is full if all nodes answer, and if it is full every target is gone |
| Gateway.ApiGateway.DeleteRecords | api-gateway/src/handlers.rs:869-877 | removes records of the given chunks only, all of them if no call is lost, and no other object's |
| Gateway.ApiGateway.Delete | api-gateway/src/handlers.rs:787-928 | with the metadata node up it succeeds if and only if the object can be looked up; then nothing of the object is left in the metadata, nor on any recorded replica whose node answers, and no other copy or object changes; an object that cannot be looked up is left alone |
| Gateway.HeldIsReachable | api-gateway/src/handlers.rs:530-557 | an object that was uploaded can be downloaded whenever every chunk has one replica that answers |
| Gateway.UploadedComesBack | api-gateway/src/handlers.rs:489-605 | what either upload stored is what a download returns: exactly the body that was sent |
| Gateway.AnswerIsPiece | api-gateway/src/handlers.rs:522-560 | whichever replica answers for the i-th chunk, the answer is the i-th piece |
| Gateway.ConfirmedChunkIsAppended | api-gateway/src/handlers.rs:960-970 | confirming a written chunk appends it to what the object holds |
| Gateway.DeleteObjectLeavesOthers | storage-metadata/src/metadata_store.rs:298-309 | a rollback touches no other object, because lists are disjoint |
| Replication.ListUnderReplicated | storage-metadata/src/metadata_store.rs:483-492 | exactly the confirmed chunks with fewer than three replicas, each once, fewest replicas first |
| Replication.EligibleIff | replication-service/src/main.rs:150-164 | a chunk has an eligible node if and only if it has fewer replicas than there are nodes |
| Replication.LackingComeFirst | storage-metadata/src/metadata_store.rs:483-492 | in that order the chunks that lack a replica come before those merely below three |
| Replication.AddedStaysHealthy | replication-service/src/main.rs:265-330 | one more replica keeps copies and records in accordance |
| Replication.AddedLowersDeficit | storage-metadata/src/metadata_store.rs:500-547 | and lowers the deficit by one if the chunk lacked any |
| Replication.Replicator.Fetch | replication-service/src/main.rs:193-263 | reads from the first replica, accepts only bytes with the recorded checksum, and succeeds if that replica answers with them |
| Replication.Replicator.Deliver | replication-service/src/main.rs:265-321 | writes, then records; a copy that cannot be recorded is erased again, so that with the node up a failure leaves the state as it was, and no copy that was there is lost |
| Replication.Replicator.ReplicateChunk | replication-service/src/main.rs:149-330 | success is one more replica with the right bytes, and with all nodes up a failure changes nothing; it succeeds if the chunk has a good source and all its eligible nodes are good targets, and in a healthy state without faults if and only if it has fewer replicas than there are nodes |
| Replication.Replicator.RunCycle | replication-service/src/main.rs:77-341 | whatever fails, the deficit does not grow, no copy is lost, exactly as many chunks as are counted, within the limit, gain one replica and no other record changes; with all nodes up every new copy is recorded; within the limit each chunk that can gain a replica does, whatever fails for others; without faults the deficit falls by exactly the number of chunks replicated, which is the limit or the number of lacking chunks |
| Replication.Replicator.RunCycles | replication-service/src/main.rs:77-341 | without faults and with a positive limit the deficit is zero after at most as many cycles as replicas were missing; with all nodes up no cycle leaves a copy without a record |
| Replication.NoLimitWastedIff | storage-metadata/src/metadata_store.rs:483-492 | a listing puts every part of every limit to use if and only if the lacking chunks come first in it |
| Replication.ABadOrderStarves | storage-metadata/src/metadata_store.rs:483-492 | a state and a listing order in which a cycle of limit one has nothing to do while a replica is missing |
| Protocol.OnlyActorMoves | api-gateway/src/handlers.rs:333-429 | a step moves one process only |
| ProtocolSteps.PutStepCopies | api-gateway/src/handlers.rs:372-385 | a PUT stores the piece it is at, at the address it was given, and no other of its steps touches a copy |
| ProtocolSteps.DeleteStepCopies | api-gateway/src/handlers.rs:828-867 | a DELETE erases exactly the copies it has listed |
| ProtocolSteps.CopyStepCopies | replication-service/src/main.rs:265-321 | a replication stores what it has read and erases it when it cleans up |
| ProtocolSteps.CopyEndsClean | replication-service/src/main.rs:296-321 | a replication lets go of a copy only when it has recorded or erased it |
| ProtocolSteps.StepKeepsReferential | api-gateway/src/handlers.rs:333-429 | every step of every process keeps the referential invariant of the metadata |
| ProtocolSteps.PutStepViews | api-gateway/src/handlers.rs:333-429 | a PUT's steps as a reader sees them: an empty object, one more record per confirmation, no object after the rollback |
| ProtocolSteps.DeleteStepViews | api-gateway/src/handlers.rs:869-900 | a DELETE's steps: each listed chunk is gone with its record, the other chunks of the list in their order; at the end the object is gone |
| ProtocolSteps.RecordExtends | replication-service/src/main.rs:296-304 | recording a replica extends one record by one node, or changes nothing |
| ProtocolAlone.UploadAlone | api-gateway/src/handlers.rs:188-429 | an upload that is left alone completes, and its object lists a chunk for every piece, issued for exactly that piece |
| ProtocolAlone.DownloadAlone | api-gateway/src/handlers.rs:489-605 | a download that is left alone delivers what the listed chunks were issued for, if each has a replica that is there |
| ProtocolAlone.DeleteAlone | api-gateway/src/handlers.rs:787-928 | a deletion that is left alone leaves no object, no record of its chunks, and no copy at a recorded replica that is there |
| ProtocolAlone.ReplicateAlone | replication-service/src/main.rs:149-330 | a replication that is left alone gives the node a copy of the first replica and records it last |
| ProtocolContents.StepKeepsSound | api-gateway/src/handlers.rs:333-429 | every step of every process keeps copies, records and data in flight in accordance with what chunk ids were issued for |
| ProtocolContents.RunKeepsSound | api-gateway/src/handlers.rs:333-429 | over every interleaving each stored copy of a chunk is what the gateway first wrote for it |
| ProtocolContents.CopiesNeverDiffer | replication-service/src/main.rs:193-320 | copies of one chunk are alike on any two nodes and at any two times of any run |
| ProtocolContents.DownloadReturnsLookedUp | api-gateway/src/handlers.rs:522-581 | a download that succeeds returns what the chunks listed at its look-up were issued for, whatever happened in between |
| ProtocolContents.ChecksumsMatch | replication-service/src/main.rs:247-263 | the replicator's comparison never finds a mismatch |
| ProtocolUploads.StepKeepsOrigins | api-gateway/src/handlers.rs:333-429 | every step keeps intact objects at the pieces confirmed by their creator |
| ProtocolUploads.ReachableIsSound | api-gateway/src/handlers.rs:333-429 | both invariants hold in every reachable state |
| ProtocolUploads.DownloadReturnsUploaded | api-gateway/src/handlers.rs:522-581 | looked up while intact, an object is downloaded, if at all, as a whole-chunk front of its upload, and as exactly the uploaded pieces if the upload had completed |
| ProtocolUploads.IntactUntil | storage-metadata/src/metadata_store.rs:368-440 | an object keeps its origin until it is deleted, and stops being intact exactly when a deletion takes a chunk off its list or a PUT confirms a chunk into an object it did not create |
| ProtocolUploads.WholeIffNoIntrusion | api-gateway/src/handlers.rs:333-429 | while nobody removes it or takes chunks off it, an object lists what its creator has confirmed, and all that was uploaded once the upload is complete, if and only if no other PUT has confirmed a chunk into it; its list is longer by exactly the number of such confirmations |
| ProtocolUploads.DisciplineKeepsIntact | api-gateway/src/handlers.rs:787-928 | if nobody removes an object while another upload of that name is under way, an object that nobody removes, by deletion or rollback, and takes no chunk from stays intact |
| ProtocolUploads.ForeignChunksCanIntrude | api-gateway/src/handlers.rs:333-429 | a run in which a completed, undeleted upload lists bytes it never contained |
| ProtocolDurability.StepKeepsNamed | storage-metadata/src/metadata_store.rs:349-440 | every step keeps each chunk id with the object name it was issued for, in records, lists and processes |
| ProtocolDurability.ReachableIsNamed | storage-metadata/src/metadata_store.rs:349-440 | so it is in every reachable state |
| ProtocolDurability.DeletionsKeepToTheirName | api-gateway/src/handlers.rs:869-877 | a DELETE takes chunks off no list but that of the object it was asked to delete |
| ProtocolDurability.StandsIffNoLeftover | api-gateway/src/handlers.rs:333-429 | an object stands, with its creator's pieces, through every run in which no DELETE of its name gets past its look-up and the creator does not undo it - if and only if no other process that could still confirm, undo or delete under that name is left |
| ProtocolDurability.CompletedUploadIsDelivered | api-gateway/src/handlers.rs:489-605 | then a download that looks the object up before a DELETE does delivers, if anything, the uploaded pieces |
| ProtocolDurability.RollbackTakesAnothersObject | api-gateway/src/handlers.rs:345-425 | a run in which the rollback of a failed PUT removes the object that another PUT has completed, with every DELETE ended |
| ProtocolPlacement.StepKeepsPlaced | replication-service/src/main.rs:265-321 | every step but a DELETE's erasure keeps recorded replicas in place and written copies unrecorded by others |
| ProtocolPlacement.EraseKeepsPlacedIff | api-gateway/src/handlers.rs:828-867 | an erasure keeps that if and only if the copy is neither recorded nor just written by another process |
| ProtocolPlacement.RecordedReplicasHoldTheChunk | replication-service/src/main.rs:247-321 | in runs without erasures every node recorded for a confirmed chunk holds its bytes, and their checksum is the recorded one |
| ProtocolPlacement.CleanupSparesReplicas | replication-service/src/main.rs:296-321 | the cleanup after a rejected replica record never erases a recorded replica |

## Left out

- gRPC, HTTP, base64, JSON and multipart parsing, status codes, tracing, metrics, configuration, connection caches, retry delays, object name validation, and the request dispatch.
- xxh3 is a function about which nothing is assumed, serde an identity, and random choices are nondeterministic; ids that the code draws at random are fresh among those it still knows, as the code checks, and `Protocol` takes them as never issued before.
- Gossip and health checks: a tick gets an arbitrary live list, and storage nodes leave the registry at any time.
- The public handlers of `storage-metadata/src/main.rs`: their store and index bodies mirror `cluster_service.rs`; `update_object_checksum` is never forwarded, so `Gateway` and `Protocol` have one metadata node.
- Broadcasts and scatter-gather between metadata nodes (`storage-metadata/src/forwarding.rs:199-340`) and the listing handlers.
- Removing transferred objects from the peers: the code has `remove_objects` but does not call it after a migration, so objects stay on both sides and cluster-wide listings repeat them.
- Locks inside one storage node: each of its operations is one step, since `put_chunk` and `delete_chunk` hold the index lock throughout.
- The order in which a recovery leaves the free stack is ascending; it is compared with the stack before as a multiset.
- ChunkFile.ChunkStore.PutChunk: a payload above the slot's capacity is taken only if it is not going to be written; otherwise the code panics at an assertion, and what the panic leaves behind is not modelled.
- Crashes inside two overlapping operations, and a fast recovery after torn writes.
- MetadataStore.MetadataStore.Save: takes a rename to last once it has returned. The code does not sync the directory, so a power failure may take the last renames back; what is then found is the file of an earlier operation, to which `CrashShowsBeforeOrAfter` applies.
- ClusterService.MetadataClusterService.ForwardDeleteObject: is one step. The code reads the list and deletes the object under two separate acquisitions of the lock, and cleans the index up afterwards; what a late clean-up may drop is `CleanupAgreesIff`. The other handlers are atomic too, although their index updates follow the release of the lock.
- Migration.MigrationManager.PullPartition: leaves out the broadcast of the pulled index entries to the peers.
- Migration.MigrationManager.MigrateOnJoin: leaves out the closing broadcast of the whole chunk index.
- HashRing.PositionsOfNode: whether xxh3 tells the 150 names of a node apart is not known to the model.
- HashRing.HashRing.Nodes: leaves the order of the ids open, which the code sorts; no caller depends on it.
- Membership.HistoryIndependentIff: whether two given node names share a position under xxh3 is not known to the model.
- Gateway.ApiGateway.Download: reads the chunks one after the other; the code starts all reads at once, which `Protocol` has as steps in any order.
- Gateway.ApiGateway.EraseCopies: erases one after the other; the code starts all erasures at once, which `Protocol` has as steps in any order.
- Calls whose effect takes place although their reply is lost: a failed call is taken to have had no effect.
- Free space on storage nodes: a node that can be reached and does not have the chunk takes it, or fails for an unnamed reason.
- The checksum and size that a streamed upload sets at the end are part of `Gateway` but not of `Protocol`, where they change nothing that is stated.
- Copies that failed, raced or undone uploads leave on storage nodes are never collected by the code, and no lemma says they are.
