/**
 * The API gateway: uploading an object in one go or as a stream, reading it back with failover,
 * and deleting it.
 */
module Gateway {
  import opened Base
  import opened Metadata
  import opened MetadataInvariants
  import opened Cluster
  import opened Chunking
  import opened Calls
  import Crc32

  const MAX_OBJECT_SIZE: nat := 10 * 1024 * 1024 * 1024

  /** The "file" field of a multipart request: the pieces it arrives in, and whether the stream ends without an error. */
  datatype FileField = FileField(parts: seq<seq<byte>>, intact: bool)

  /** An upload in progress: since `origin` only this object has changed, it holds these pieces, and its header is this. */
  ghost predicate Uploading(origin: ClusterState, now: ClusterState, name: string, header: MetaObject, pieces: seq<seq<byte>>) {
    && Referential(now.meta)
    && LeavesOthers(origin, now, name)
    && Holds(now, name, pieces)
    && Header(now, name) == header
  }

  /** What can be left of an upload that failed: nothing, or the object with some of its first chunks. */
  ghost predicate FrontUploaded(c: ClusterState, name: string, body: seq<byte>, n: nat)
    requires n > 0
  {
    || name !in c.meta.objects
    || exists k | 0 <= k <= |ChunksOf(body, n)| :: Holds(c, name, ChunksOf(body, n)[..k])
  }

  /** Some replica of the chunk can be reached, and is there. */
  ghost predicate Reachable(c: ClusterState, up: set<Address>, ref: ChunkRef) {
    exists a | a in ref.addresses :: a in up && c.Copy(a, ref.id).Some?
  }

  ghost predicate AllReachable(c: ClusterState, up: set<Address>, name: string) {
    Readable(c.meta, name) && forall ref | ref in RefsOf(c.meta, name) :: Reachable(c, up, ref)
  }

  /**
   * Nothing stands in the way of storing `n` more chunks: no call is lost, every storage node is there and answers,
   * there is one, no copy is left of a chunk without a record, and there are ids.
   */
  ghost predicate ReadyFor(c: ClusterState, metadataUp: bool, up: set<Address>, n: nat) {
    && metadataUp && c.meta.nodes != map[]
    && (forall node | node in c.meta.nodes :: c.meta.nodes[node] in up && c.meta.nodes[node] in c.disks)
    && (forall address, id | c.Copy(address, id).Some? :: id in c.meta.chunks)
    && |c.meta.chunks| + n <= U64_MAX + 1
  }

  /** There is one more chunk record, and no copy without a record that was not there before. */
  ghost predicate OneMoreChunk(a: ClusterState, b: ClusterState) {
    && b.meta.nodes == a.meta.nodes && a.disks.Keys <= b.disks.Keys
    && a.meta.chunks.Keys <= b.meta.chunks.Keys && |b.meta.chunks| <= |a.meta.chunks| + 1
    && forall address, id | b.Copy(address, id).Some? :: id in b.meta.chunks || a.Copy(address, id).Some?
  }

  /** Nothing stands in the way of the whole body either, and it is not too large. */
  ghost predicate Welcome(c: ClusterState, metadataUp: bool, up: set<Address>, field: FileField) {
    ReadyFor(c, metadataUp, up, |Flatten(field.parts)|) && field.intact && |Flatten(field.parts)| <= MAX_OBJECT_SIZE
  }

  /** The bytes are the copy at the `k`-th replica, and none of the replicas before it can be reached and is there. */
  ghost predicate ReadAt(c: ClusterState, up: set<Address>, ref: ChunkRef, k: nat, data: seq<byte>) {
    && k < |ref.addresses| && c.Copy(ref.addresses[k], ref.id) == Some(data)
    && forall j | 0 <= j < k :: !(ref.addresses[j] in up && c.Copy(ref.addresses[j], ref.id).Some?)
  }

  ghost predicate ReadFrom(c: ClusterState, up: set<Address>, ref: ChunkRef, data: seq<byte>) {
    exists k :: ReadAt(c, up, ref, k, data)
  }

  /** An answer comes from the first replica that can be reached or an earlier one, and there is one if a replica is reachable. */
  ghost predicate AnswerFor(c: ClusterState, up: set<Address>, ref: ChunkRef, answer: Result<seq<byte>>) {
    && (answer.Ok? ==> ReadFrom(c, up, ref, answer.value))
    && (Reachable(c, up, ref) ==> answer.Ok?)
  }

  /** These are the bytes of the first chunks, each read from one of its replicas. */
  ghost predicate ReadInOrder(c: ClusterState, up: set<Address>, refs: seq<ChunkRef>, parts: seq<seq<byte>>) {
    |parts| <= |refs| && forall i | 0 <= i < |parts| :: ReadFrom(c, up, refs[i], parts[i])
  }

  /** The storage node at the address answers, and is there. */
  predicate Erasable(c: ClusterState, up: set<Address>, target: (u64, Address)) {
    target.1 in up && target.1 in c.disks
  }

  /** The targets may be gone, and no other copy is different. */
  ghost predicate OnlyErased(a: ClusterState, b: ClusterState, targets: seq<(u64, Address)>) {
    forall address, id: u64 :: b.Copy(address, id) == a.Copy(address, id) || (b.Copy(address, id).None? && (id, address) in targets)
  }

  /** Erasing the targets as far as possible: those whose nodes answer are gone, and no other copy is. */
  ghost predicate Erased(a: ClusterState, b: ClusterState, up: set<Address>, targets: seq<(u64, Address)>, erased: nat) {
    && OnlyErased(a, b, targets) && erased <= |targets|
    && (forall t | t in targets && Erasable(a, up, t) :: b.Copy(t.1, t.0).None?)
    && (erased == |targets| ==> forall t | t in targets :: b.Copy(t.1, t.0).None?)
    && ((forall t | t in targets :: Erasable(a, up, t)) ==> erased == |targets|)
  }

  /** Records were removed of these chunks only, and if that is sure, of all of them. */
  ghost predicate RecordsTaken(before: map<u64, MetaChunk>, after: map<u64, MetaChunk>, ids: seq<u64>, sure: bool) {
    && (forall id: u64 :: RecordOf(after, id) == RecordOf(before, id) || (id in ids && id !in after))
    && (sure ==> forall id | id in ids :: id !in after)
  }

  /** The records of the first `i` of these chunks of the object have been deleted, as far as possible. */
  ghost predicate Unrecording(before: ClusterState, now: ClusterState, name: string, ids: seq<u64>, i: nat, sure: bool)
    requires i <= |ids|
  {
    && Referential(now.meta) && LeavesOthers(before, now, name) && now.disks == before.disks
    && OwnOrGone(now.meta, name, ids) && RecordsTaken(before.meta.chunks, now.meta.chunks, ids[..i], sure)
  }

  /** These parts have come: all of them were fed to the checksum, and are flushed or in the buffer. */
  ghost predicate Received(parts: seq<seq<byte>>, fed: seq<byte>, size: nat, buffer: seq<byte>, done: seq<seq<byte>>, n: nat) {
    fed == Flatten(parts) && size == |fed| <= MAX_OBJECT_SIZE && |buffer| < n && FullSize(done, n) && Flatten(done) + buffer == fed
  }

  /** These chunks are recorded for this object or not at all. */
  ghost predicate OwnOrGone(m: MetaState, name: string, ids: seq<u64>) {
    && name in m.objects
    && forall id | id in ids && id in m.chunks :: m.chunks[id].objectName == name && id in m.objects[name].chunks
  }

  /** An object's record apart from its chunk list. */
  function Header(c: ClusterState, name: string): MetaObject
    requires name in c.meta.objects
  {
    c.meta.objects[name].(chunks := [])
  }

  /** The gateway's handlers, over its remote calls. */
  class ApiGateway {
    /** The remote side; nobody else changes it while a handler runs. */
    const remote: Remote

    constructor (remote: Remote)
      ensures this.remote == remote
    {
      this.remote := remote;
    }

    // -------------------------------------------------------------------------------------
    // Uploading
    // -------------------------------------------------------------------------------------

    /** Allocate, write, confirm: stores one buffer as the next chunk of the object. */
    method FlushChunk(buf: seq<byte>, name: string, ghost pieces: seq<seq<byte>>) returns (r: Result<()>, connected: bool)
      requires Referential(remote.state.meta) && Holds(remote.state, name, pieces)
      modifies remote
      ensures Referential(remote.state.meta) && LeavesOthers(old(remote.state), remote.state, name)
      ensures Holds(remote.state, name, if r.Ok? then pieces + [buf] else pieces)
      ensures Header(remote.state, name) == Header(old(remote.state), name)
      ensures r.Ok? ==> connected
      ensures ReadyFor(old(remote.state), remote.metadataUp, remote.up, 1) ==> r.Ok?
      ensures r.Ok? ==> OneMoreChunk(old(remote.state), remote.state)
    {
      connected := true;
      ghost var before := remote.state;
      var checksum := Crc32.Checksum(buf);
      var reply := remote.AllocateChunk(name);
      if reply.Err? {
        return Err(reply.error), true;
      }
      var (id, node, address) := reply.value;
      ghost var reserved := remote.state;
      ReservedForStoring(before, reserved, remote.metadataUp, remote.up, id, name, node, pieces);
      connected := remote.Connect(address);
      if !connected {
        return Err(Io), false;
      }
      r := remote.WriteChunk(address, id, buf);
      if r.Err? {
        return;
      }
      WrittenLeavesAll(before, reserved, remote.state, id, name, node, address, buf, pieces);
      ghost var written := remote.state;
      ConfirmChunkKeeps(written.meta, id, name, checksum, node);
      r := remote.ConfirmChunk(id, name, checksum, node);
      if r.Ok? {
        ConfirmedChunkIsAppended(before, written, remote.state, id, name, node, buf, pieces);
        StoredIsOneMore(before, reserved, written, remote.state, id, name, checksum, node, buf);
      }
    }

    /** The same as one step of an upload that started at `origin`. */
    method FlushNext(buf: seq<byte>, name: string, ghost origin: ClusterState, ghost header: MetaObject, ghost pieces: seq<seq<byte>>, ghost n: nat)
      returns (r: Result<()>, connected: bool)
      requires Uploading(origin, remote.state, name, header, pieces)
      modifies remote
      ensures Uploading(origin, remote.state, name, header, if r.Ok? then pieces + [buf] else pieces)
      ensures r.Ok? ==> connected
      ensures n > 0 && ReadyFor(old(remote.state), remote.metadataUp, remote.up, n) ==>
                r.Ok? && ReadyFor(remote.state, remote.metadataUp, remote.up, n - 1)
    {
      ghost var was := remote.state;
      r, connected := FlushChunk(buf, name, pieces);
      if n > 0 && ReadyFor(was, remote.metadataUp, remote.up, n) {
        StillReady(was, remote.state, remote.metadataUp, remote.up, n);
      }
      LeavesOthersTwice(origin, was, remote.state, name);
    }

    /** Undoes a failed upload in the metadata, as far as the metadata node can be reached. */
    method Rollback(name: string, ghost origin: ClusterState)
      requires Referential(remote.state.meta) && LeavesOthers(origin, remote.state, name)
      modifies remote
      ensures Referential(remote.state.meta) && LeavesOthers(origin, remote.state, name)
      ensures remote.state == old(remote.state) || name !in remote.state.meta.objects
      ensures remote.metadataUp ==> name !in remote.state.meta.objects
    {
      ghost var was := remote.state;
      DeleteObjectKeeps(remote.state.meta, name);
      DeleteObjectLeavesOthers(remote.state, name);
      var r := remote.DeleteObject(name);
      LeavesOthersTwice(origin, was, remote.state, name);
    }

    /**
     * The JSON upload, from the point where the chunk size is known. When the storage node of a chunk
     * cannot be connected to, it returns without undoing anything.
     */
    method UploadBatch(name: string, data: seq<byte>, chunkSize: nat) returns (r: Result<nat>, connected: bool)
      requires chunkSize > 0 && Referential(remote.state.meta)
      modifies remote
      ensures Referential(remote.state.meta) && LeavesOthers(old(remote.state), remote.state, name)
      ensures name in old(remote.state).meta.objects || |data| > MAX_OBJECT_SIZE ==> r.Err? && remote.state == old(remote.state)
      ensures r.Ok? ==> r.value == |data| && Holds(remote.state, name, ChunksOf(data, chunkSize))
      ensures r.Ok? ==> Header(remote.state, name) == MetaObject(name, Crc32.Checksum(data), [], 0)
      ensures r.Err? && remote.state != old(remote.state) ==> FrontUploaded(remote.state, name, data, chunkSize)
      ensures !connected ==> r.Err? && remote.state != old(remote.state) && name in remote.state.meta.objects
      ensures r.Err? && remote.state != old(remote.state) && remote.metadataUp ==>
                (connected <==> name !in remote.state.meta.objects)
      ensures name !in old(remote.state).meta.objects && |data| <= MAX_OBJECT_SIZE &&
                ReadyFor(old(remote.state), remote.metadataUp, remote.up, |ChunksOf(data, chunkSize)|) ==>
                r.Ok?
    {
      connected := true;
      if |data| > MAX_OBJECT_SIZE {
        return Err(InvalidInput), true;
      }
      var checksum := Crc32.Checksum(data);
      var pieces := ChunksOf(data, chunkSize);
      ghost var origin := remote.state;
      var created := remote.PutObject(checksum, name);
      if created.Err? {
        return Err(AlreadyExists), true;
      }
      CreatedIsReady(origin, remote.metadataUp, remote.up, |pieces|, checksum, name);
      r, connected := UploadPieces(name, pieces, origin, MetaObject(name, checksum, [], 0));
      if r.Ok? {
        r := Ok(|data|);
      }
    }

    /** The upload loop of the JSON path. */
    method UploadPieces(name: string, pieces: seq<seq<byte>>, ghost origin: ClusterState, ghost header: MetaObject)
      returns (r: Result<nat>, connected: bool)
      requires Uploading(origin, remote.state, name, header, [])
      modifies remote
      ensures Referential(remote.state.meta) && LeavesOthers(origin, remote.state, name)
      ensures r.Ok? ==> Uploading(origin, remote.state, name, header, pieces)
      ensures r.Err? ==> name !in remote.state.meta.objects || exists k | 0 <= k <= |pieces| :: Holds(remote.state, name, pieces[..k])
      ensures r.Err? && remote.metadataUp && connected ==> name !in remote.state.meta.objects
      ensures !connected ==> r.Err? && name in remote.state.meta.objects
      ensures ReadyFor(old(remote.state), remote.metadataUp, remote.up, |pieces|) ==> r.Ok?
    {
      connected := true;
      ghost var ready := ReadyFor(remote.state, remote.metadataUp, remote.up, |pieces|);
      var i := 0;
      while i < |pieces|
        invariant 0 <= i <= |pieces| && connected
        invariant ready ==> ReadyFor(remote.state, remote.metadataUp, remote.up, |pieces| - i)
        invariant Uploading(origin, remote.state, name, header, pieces[..i])
      {
        var flushed;
        flushed, connected := FlushNext(pieces[i], name, origin, header, pieces[..i], |pieces| - i);
        if !connected {
          return Err(Io), false;
        }
        if flushed.Err? {
          Rollback(name, origin);
          return Err(Io), true;
        }
        assert pieces[..i] + [pieces[i]] == pieces[..i + 1];
        i := i + 1;
      }
      assert pieces[..i] == pieces;
      return Ok(i), true;
    }

    /** Flushes chunks of full size off the front of the buffer while there are any. */
    method DrainBuffer(buffer: seq<byte>, chunkSize: nat, name: string,
                       ghost origin: ClusterState, ghost header: MetaObject, ghost flushed: seq<seq<byte>>, ghost more: nat)
      returns (r: Result<()>, rest: seq<byte>, ghost done: seq<seq<byte>>)
      requires chunkSize > 0 && Uploading(origin, remote.state, name, header, flushed) && FullSize(flushed, chunkSize)
      modifies remote
      ensures Uploading(origin, remote.state, name, header, done) && FullSize(done, chunkSize)
      ensures Flatten(done) <= Flatten(flushed) + buffer
      ensures r.Ok? ==> |rest| < chunkSize && Flatten(done) + rest == Flatten(flushed) + buffer
      ensures ReadyFor(old(remote.state), remote.metadataUp, remote.up, |buffer| + more) ==>
                r.Ok? && ReadyFor(remote.state, remote.metadataUp, remote.up, |rest| + more)
    {
      ghost var ready := ReadyFor(remote.state, remote.metadataUp, remote.up, |buffer| + more);
      rest, done, r := buffer, flushed, Ok(());
      while |rest| >= chunkSize
        invariant r.Ok?
        invariant ready ==> ReadyFor(remote.state, remote.metadataUp, remote.up, |rest| + more)
        invariant Uploading(origin, remote.state, name, header, done) && FullSize(done, chunkSize)
        invariant Flatten(done) + rest == Flatten(flushed) + buffer
      {
        r, rest, done := DrainFirst(rest, chunkSize, name, origin, header, done, more);
        if r.Err? {
          return;
        }
      }
    }

    /** Flushes the first chunk of the buffer. */
    method DrainFirst(buffer: seq<byte>, chunkSize: nat, name: string,
                      ghost origin: ClusterState, ghost header: MetaObject, ghost flushed: seq<seq<byte>>, ghost more: nat)
      returns (r: Result<()>, rest: seq<byte>, ghost done: seq<seq<byte>>)
      requires 0 < chunkSize <= |buffer| && Uploading(origin, remote.state, name, header, flushed) && FullSize(flushed, chunkSize)
      modifies remote
      ensures Uploading(origin, remote.state, name, header, done) && FullSize(done, chunkSize)
      ensures r.Ok? ==> |rest| == |buffer| - chunkSize
      ensures Flatten(done) + rest == Flatten(flushed) + buffer
      ensures ReadyFor(old(remote.state), remote.metadataUp, remote.up, |buffer| + more) ==>
                r.Ok? && ReadyFor(remote.state, remote.metadataUp, remote.up, |rest| + more)
    {
      var connected;
      r, connected := FlushNext(buffer[..chunkSize], name, origin, header, flushed, |buffer| + more);
      if r.Err? {
        return r, buffer, flushed;
      }
      DrainOne(flushed, buffer, chunkSize);
      rest, done := buffer[chunkSize..], flushed + [buffer[..chunkSize]];
    }

    /** Takes in one piece of the body: checksum, size limit, buffer, and full chunks out. */
    method ReceivePart(part: seq<byte>, chunkSize: nat, name: string, hasher: Crc32.Hasher, size: nat, waiting: seq<byte>,
                       ghost origin: ClusterState, ghost header: MetaObject, ghost flushed: seq<seq<byte>>, ghost more: nat)
      returns (r: Result<()>, totalSize: nat, buffer: seq<byte>, ghost done: seq<seq<byte>>)
      requires chunkSize > 0 && Uploading(origin, remote.state, name, header, flushed) && FullSize(flushed, chunkSize)
      requires hasher.Valid() && hasher.fed == Flatten(flushed) + waiting && size == |hasher.fed|
      modifies remote, hasher
      ensures hasher.Valid() && hasher.fed == old(hasher.fed) + part && totalSize == |hasher.fed|
      ensures Uploading(origin, remote.state, name, header, done) && FullSize(done, chunkSize)
      ensures Flatten(done) <= hasher.fed
      ensures r.Ok? ==> totalSize <= MAX_OBJECT_SIZE && |buffer| < chunkSize && Flatten(done) + buffer == hasher.fed
      ensures ReadyFor(old(remote.state), remote.metadataUp, remote.up, |waiting| + |part| + more) && size + |part| <= MAX_OBJECT_SIZE ==>
                r.Ok? && ReadyFor(remote.state, remote.metadataUp, remote.up, |buffer| + more)
    {
      hasher.Update(part);
      totalSize := size + |part|;
      if totalSize > MAX_OBJECT_SIZE {
        return Err(InvalidInput), totalSize, waiting, flushed;
      }
      assert Flatten(flushed) + (waiting + part) == hasher.fed;
      r, buffer, done := DrainBuffer(waiting + part, chunkSize, name, origin, header, flushed, more);
    }

    /** Receives the pieces of the field one by one. */
    method ReceiveField(field: FileField, chunkSize: nat, name: string, ghost origin: ClusterState, ghost header: MetaObject)
      returns (r: Result<()>, hasher: Crc32.Hasher, totalSize: nat, buffer: seq<byte>, ghost done: seq<seq<byte>>)
      requires chunkSize > 0 && Uploading(origin, remote.state, name, header, [])
      modifies remote
      ensures fresh(hasher) && hasher.Valid()
      ensures Uploading(origin, remote.state, name, header, done) && FullSize(done, chunkSize)
      ensures Flatten(done) <= Flatten(field.parts)
      ensures r.Ok? ==> field.intact && |buffer| < chunkSize && Flatten(done) + buffer == Flatten(field.parts)
      ensures r.Ok? ==> hasher.fed == Flatten(field.parts) && totalSize == |Flatten(field.parts)| <= MAX_OBJECT_SIZE
      ensures Welcome(old(remote.state), remote.metadataUp, remote.up, field) ==>
                r.Ok? && ReadyFor(remote.state, remote.metadataUp, remote.up, |buffer|)
    {
      ghost var whole, welcome := |Flatten(field.parts)|, Welcome(remote.state, remote.metadataUp, remote.up, field);
      hasher := new Crc32.Hasher();
      r, totalSize, buffer, done := Ok(()), 0, [], [];
      var i := 0;
      while i < |field.parts|
        invariant 0 <= i <= |field.parts| && fresh(hasher) && hasher.Valid() && r.Ok?
        invariant Uploading(origin, remote.state, name, header, done)
        invariant Received(field.parts[..i], hasher.fed, totalSize, buffer, done, chunkSize) && totalSize <= whole
        invariant welcome ==> ReadyFor(remote.state, remote.metadataUp, remote.up, |buffer| + (whole - totalSize))
      {
        r, totalSize, buffer, done := ReceiveNext(field.parts, i, chunkSize, name, hasher, totalSize, buffer, origin, header, done, welcome);
        if r.Err? {
          return;
        }
        i := i + 1;
      }
      assert field.parts[..i] == field.parts;
      if !field.intact {
        r := Err(Io);
      }
    }

    /** The same for the part at position `i`; `welcome` says that nothing stands in the way of the rest. */
    method ReceiveNext(parts: seq<seq<byte>>, i: nat, chunkSize: nat, name: string, hasher: Crc32.Hasher, size: nat, waiting: seq<byte>,
                       ghost origin: ClusterState, ghost header: MetaObject, ghost flushed: seq<seq<byte>>, ghost welcome: bool)
      returns (r: Result<()>, totalSize: nat, buffer: seq<byte>, ghost done: seq<seq<byte>>)
      requires i < |parts| && chunkSize > 0 && hasher.Valid() && Uploading(origin, remote.state, name, header, flushed)
      requires Received(parts[..i], hasher.fed, size, waiting, flushed, chunkSize) && size <= |Flatten(parts)|
      requires welcome ==> |Flatten(parts)| <= MAX_OBJECT_SIZE &&
                           ReadyFor(remote.state, remote.metadataUp, remote.up, |waiting| + (|Flatten(parts)| - size))
      modifies remote, hasher
      ensures hasher.Valid() && Uploading(origin, remote.state, name, header, done)
      ensures FullSize(done, chunkSize) && Flatten(done) <= Flatten(parts)
      ensures r.Ok? ==> Received(parts[..i + 1], hasher.fed, totalSize, buffer, done, chunkSize) && totalSize <= |Flatten(parts)|
      ensures welcome ==> r.Ok? && ReadyFor(remote.state, remote.metadataUp, remote.up, |buffer| + (|Flatten(parts)| - totalSize))
    {
      PartOfBody(parts, i, hasher.fed, Flatten(parts));
      ghost var more := |Flatten(parts)| - (size + |parts[i]|);
      r, totalSize, buffer, done := ReceivePart(parts[i], chunkSize, name, hasher, size, waiting, origin, header, flushed, more);
    }

    /** What remains in the buffer becomes the last chunk; then the object gets its checksum and size. */
    method FinishUpload(name: string, chunkSize: nat, buffer: seq<byte>, hasher: Crc32.Hasher, totalSize: nat,
                        ghost origin: ClusterState, ghost header: MetaObject, ghost flushed: seq<seq<byte>>)
      returns (r: Result<()>, ghost done: seq<seq<byte>>)
      requires chunkSize > 0 && Uploading(origin, remote.state, name, header, flushed) && FullSize(flushed, chunkSize)
      requires |buffer| < chunkSize && hasher.Valid() && hasher.fed == Flatten(flushed) + buffer
      requires totalSize == |hasher.fed| <= MAX_OBJECT_SIZE && header.name == name
      modifies remote
      ensures done <= ChunksOf(hasher.fed, chunkSize)
      ensures r.Err? ==> Uploading(origin, remote.state, name, header, done)
      ensures r.Ok? ==> done == ChunksOf(hasher.fed, chunkSize)
      ensures r.Ok? ==> Uploading(origin, remote.state, name, MetaObject(name, Crc32.Checksum(hasher.fed), [], totalSize), done)
      ensures ReadyFor(old(remote.state), remote.metadataUp, remote.up, |buffer|) ==> r.Ok?
    {
      done := flushed;
      FullPartsFirst(flushed, buffer, chunkSize);
      if buffer != [] {
        var connected;
        r, connected := FlushNext(buffer, name, origin, header, flushed, |buffer|);
        if r.Err? {
          return;
        }
        done := flushed + [buffer];
      }
      var checksum := hasher.Finalize();
      ChecksumIsSet(origin, remote.state, name, header, checksum, totalSize, done);
      r := remote.UpdateObjectChecksum(name, checksum, totalSize);
    }

    /** All that follows the creation of the object, but for the rollback. */
    method StreamInto(name: string, chunkSize: nat, field: FileField, ghost origin: ClusterState, ghost header: MetaObject)
      returns (r: Result<nat>)
      requires chunkSize > 0 && Uploading(origin, remote.state, name, header, []) && header.name == name
      modifies remote
      ensures Referential(remote.state.meta) && LeavesOthers(origin, remote.state, name)
      ensures r.Err? ==> FrontUploaded(remote.state, name, Flatten(field.parts), chunkSize)
      ensures r.Ok? ==> field.intact && r.value == |Flatten(field.parts)| <= MAX_OBJECT_SIZE
      ensures r.Ok? ==> Uploading(origin, remote.state, name, MetaObject(name, Crc32.Checksum(Flatten(field.parts)), [], r.value),
                                  ChunksOf(Flatten(field.parts), chunkSize))
      ensures Welcome(old(remote.state), remote.metadataUp, remote.up, field) ==> r.Ok?
    {
      var received, hasher, totalSize, buffer;
      ghost var done;
      received, hasher, totalSize, buffer, done := ReceiveField(field, chunkSize, name, origin, header);
      if received.Ok? {
        received, done := FinishUpload(name, chunkSize, buffer, hasher, totalSize, origin, header, done);
      } else {
        FrontOfBody(done, Flatten(field.parts), chunkSize);
      }
      if received.Err? {
        assert ChunksOf(Flatten(field.parts), chunkSize)[..|done|] == done;
        return Err(received.error);
      }
      return Ok(totalSize);
    }

    /**
     * The multipart upload, from the point where the chunk size is known: the object is created with a
     * placeholder checksum, streamed in, and its checksum and size are set at the end.
     */
    method UploadStream(name: string, chunkSize: nat, request: Option<FileField>) returns (r: Result<nat>)
      requires chunkSize > 0 && Referential(remote.state.meta)
      modifies remote
      ensures Referential(remote.state.meta) && LeavesOthers(old(remote.state), remote.state, name)
      ensures name in old(remote.state).meta.objects ==> r.Err? && remote.state == old(remote.state)
      ensures r.Ok? ==> request.Some? && request.value.intact && r.value == |Flatten(request.value.parts)| <= MAX_OBJECT_SIZE
      ensures r.Ok? ==> Holds(remote.state, name, ChunksOf(Flatten(request.value.parts), chunkSize))
      ensures r.Ok? ==> Header(remote.state, name) == MetaObject(name, Crc32.Checksum(Flatten(request.value.parts)), [], r.value)
      ensures r.Err? && remote.state != old(remote.state) ==>
                FrontUploaded(remote.state, name, if request.Some? then Flatten(request.value.parts) else [], chunkSize)
      ensures r.Err? && remote.state != old(remote.state) && remote.metadataUp ==> name !in remote.state.meta.objects
      ensures name !in old(remote.state).meta.objects && request.Some? &&
                Welcome(old(remote.state), remote.metadataUp, remote.up, request.value) ==>
                r.Ok?
    {
      ghost var origin := remote.state;
      var created := remote.PutObject(0, name);
      if created.Err? {
        return Err(AlreadyExists);
      }
      if request.None? {
        assert FrontUploaded(remote.state, name, [], chunkSize) by {
          assert Holds(remote.state, name, ChunksOf([], chunkSize)[..0]);
        }
        Rollback(name, origin);
        return Err(InvalidInput);
      }
      CreatedIsReady(origin, remote.metadataUp, remote.up, |Flatten(request.value.parts)|, 0, name);
      r := StreamInto(name, chunkSize, request.value, origin, MetaObject(name, 0, [], 0));
      if r.Err? {
        Rollback(name, origin);
      }
    }

    // -------------------------------------------------------------------------------------
    // Reading back
    // -------------------------------------------------------------------------------------

    /** Tries the replicas in order until one answers. */
    method ReadAny(ref: ChunkRef) returns (r: Result<seq<byte>>)
      ensures AnswerFor(remote.state, remote.up, ref, r)
    {
      var i := 0;
      while i < |ref.addresses|
        invariant 0 <= i <= |ref.addresses|
        invariant forall j | 0 <= j < i :: !(ref.addresses[j] in remote.up && remote.state.Copy(ref.addresses[j], ref.id).Some?)
      {
        var address := ref.addresses[i];
        var connected := remote.Connect(address);
        if connected {
          var answer := remote.ReadChunk(address, ref.id);
          if answer.Ok? {
            assert ReadAt(remote.state, remote.up, ref, i, answer.value);
            return answer;
          }
        }
        i := i + 1;
      }
      return Err(Io);
    }

    /** Reads the chunks of an object, each from any replica. */
    method ReadAll(refs: seq<ChunkRef>) returns (results: seq<Result<seq<byte>>>)
      ensures |results| == |refs|
      ensures forall i | 0 <= i < |results| :: AnswerFor(remote.state, remote.up, refs[i], results[i])
    {
      results := [];
      while |results| < |refs|
        invariant |results| <= |refs|
        invariant forall i | 0 <= i < |results| :: AnswerFor(remote.state, remote.up, refs[i], results[i])
      {
        var answer := ReadAny(refs[|results|]);
        results := results + [answer];
      }
    }

    /**
     * The JSON download: all chunks, each from any replica, joined in order. When the object holds some
     * pieces this is their concatenation, whichever replicas answered.
     */
    method Download(name: string) returns (r: Result<seq<byte>>, ghost parts: seq<seq<byte>>)
      ensures r.Ok? ==> Readable(remote.state.meta, name)
      ensures r.Ok? ==> ReadInOrder(remote.state, remote.up, RefsOf(remote.state.meta, name), parts)
      ensures r.Ok? ==> |parts| == |remote.state.meta.objects[name].chunks| && r.value == Flatten(parts)
      ensures r.Ok? ==> forall pieces :: Holds(remote.state, name, pieces) ==> r.value == Flatten(pieces)
      ensures remote.metadataUp && AllReachable(remote.state, remote.up, name) ==> r.Ok?
    {
      var reply := remote.GetObject(name);
      if reply.Err? {
        return Err(reply.error), [];
      }
      var refs := reply.value;
      var results := ReadAll(refs);
      r, parts := JoinAll(refs, results);
      if r.Ok? {
        PartsArePieces(remote.state, remote.up, name, parts);
      }
    }

    /** Joins the answers in order, unless some chunk got none. */
    method JoinAll(refs: seq<ChunkRef>, results: seq<Result<seq<byte>>>) returns (r: Result<seq<byte>>, ghost parts: seq<seq<byte>>)
      requires |results| == |refs|
      requires forall i | 0 <= i < |results| :: AnswerFor(remote.state, remote.up, refs[i], results[i])
      ensures r.Ok? ==> ReadInOrder(remote.state, remote.up, refs, parts) && |parts| == |refs| && r.value == Flatten(parts)
      ensures r.Ok? <==> forall i | 0 <= i < |results| :: results[i].Ok?
      ensures (forall ref | ref in refs :: Reachable(remote.state, remote.up, ref)) ==> r.Ok?
    {
      var data: seq<byte> := [];
      parts := [];
      var i := 0;
      while i < |results|
        invariant 0 <= i == |parts| <= |results|
        invariant ReadInOrder(remote.state, remote.up, refs, parts) && data == Flatten(parts)
        invariant forall j | 0 <= j < i :: results[j].Ok?
      {
        if results[i].Err? {
          assert refs[i] in refs;
          return Err(results[i].error), parts;
        }
        FlattenSnoc(parts, results[i].value);
        data, parts := data + results[i].value, parts + [results[i].value];
        i := i + 1;
      }
      return Ok(data), parts;
    }

    /** The streaming download: the chunks one after the other, cut short at the first one that no replica delivers. */
    method DownloadStream(name: string) returns (r: Result<(seq<seq<byte>>, bool)>)
      ensures r.Ok? ==> Readable(remote.state.meta, name) && var (refs, n) := (RefsOf(remote.state.meta, name), |r.value.0|);
                && ReadInOrder(remote.state, remote.up, refs, r.value.0)
                && (r.value.1 <==> n == |refs|) && (n < |refs| ==> !Reachable(remote.state, remote.up, refs[n]))
      ensures r.Ok? ==> forall pieces :: Holds(remote.state, name, pieces) ==>
                r.value.0 <= pieces && (r.value.1 ==> r.value.0 == pieces)
      ensures remote.metadataUp && Readable(remote.state.meta, name) ==> r.Ok?
      ensures remote.metadataUp && AllReachable(remote.state, remote.up, name) ==> r.Ok? && r.value.1
    {
      var reply := remote.GetObject(name);
      if reply.Err? {
        return Err(reply.error);
      }
      var refs := reply.value;
      var yielded: seq<seq<byte>> := [];
      while |yielded| < |refs|
        invariant |yielded| <= |refs| && ReadInOrder(remote.state, remote.up, refs, yielded)
      {
        var answer := ReadAny(refs[|yielded|]);
        if answer.Err? {
          assert refs[|yielded|] in refs;
          PartsArePieces(remote.state, remote.up, name, yielded);
          return Ok((yielded, false));
        }
        yielded := yielded + [answer.value];
      }
      PartsArePieces(remote.state, remote.up, name, yielded);
      return Ok((yielded, true));
    }

    // -------------------------------------------------------------------------------------
    // Deleting
    // -------------------------------------------------------------------------------------

    /** Erases the listed copies as far as possible and counts the calls that succeeded. */
    method EraseCopies(name: string, targets: seq<(u64, Address)>) returns (erased: nat)
      requires Referential(remote.state.meta) && name in remote.state.meta.objects
      requires forall t | t in targets :: t.0 in remote.state.meta.objects[name].chunks
      modifies remote
      ensures remote.state.meta == old(remote.state).meta && LeavesOthers(old(remote.state), remote.state, name)
      ensures Erased(old(remote.state), remote.state, remote.up, targets, erased)
    {
      ghost var before := remote.state;
      erased := 0;
      var i := 0;
      while i < |targets|
        invariant 0 <= erased <= i <= |targets|
        invariant remote.state.meta == before.meta && LeavesOthers(before, remote.state, name)
        invariant remote.state.disks.Keys == before.disks.Keys && Erased(before, remote.state, remote.up, targets[..i], erased)
      {
        ghost var was := remote.state;
        var (id, address) := targets[i];
        assert targets[i] in targets;
        var r := remote.EraseChunk(address, id);
        if r.Ok? {
          EraseLeavesOthers(was, name, id, address);
          LeavesOthersTwice(before, was, remote.state, name);
          erased := erased + 1;
        }
        ErasedOneMore(before, was, remote.state, remote.up, targets[..i], targets[i], if r.Ok? then erased - 1 else erased, r.Ok?);
        assert targets[..i + 1] == targets[..i] + [targets[i]];
        i := i + 1;
      }
      assert targets[..i] == targets;
    }

    /** Deletes the records of the listed chunks; failures are only logged. */
    method DeleteRecords(name: string, ids: seq<u64>)
      requires Referential(remote.state.meta) && name in remote.state.meta.objects
      requires ids == remote.state.meta.objects[name].chunks
      modifies remote
      ensures Unrecording(old(remote.state), remote.state, name, ids, |ids|, remote.metadataUp)
    {
      var i := 0;
      while i < |ids|
        invariant 0 <= i <= |ids|
        invariant Unrecording(old(remote.state), remote.state, name, ids, i, remote.metadataUp)
      {
        DeleteNextRecord(name, ids, i, old(remote.state));
        i := i + 1;
      }
    }

    method DeleteNextRecord(name: string, ids: seq<u64>, i: nat, ghost before: ClusterState)
      requires i < |ids| && Unrecording(before, remote.state, name, ids, i, remote.metadataUp)
      modifies remote
      ensures Unrecording(before, remote.state, name, ids, i + 1, remote.metadataUp)
    {
      ghost var was := remote.state;
      DeleteChunkKeeps(was.meta, ids[i]);
      DeleteRecordLeavesOthers(was, name, ids[i], ids);
      var r := remote.DeleteChunkRecord(ids[i]);
      LeavesOthersTwice(before, was, remote.state, name);
      OneRecordTaken(before.meta.chunks, was.meta.chunks, remote.state.meta.chunks, ids[..i], ids[i], remote.metadataUp);
      assert ids[..i + 1] == ids[..i] + [ids[i]];
    }

    /** Deletes the chunk records, and then the object record. */
    method RemoveRecords(name: string, ids: seq<u64>) returns (r: Result<()>)
      requires Referential(remote.state.meta) && name in remote.state.meta.objects
      requires ids == remote.state.meta.objects[name].chunks
      modifies remote
      ensures Referential(remote.state.meta) && LeavesOthers(old(remote.state), remote.state, name) && remote.state.disks == old(remote.state).disks
      ensures r.Ok? ==> name !in remote.state.meta.objects && forall id | id in ids :: id !in remote.state.meta.chunks
      ensures remote.metadataUp ==> r.Ok?
    {
      ghost var before := remote.state;
      DeleteRecords(name, ids);
      ghost var unlisted := remote.state;
      DeleteObjectKeeps(remote.state.meta, name);
      DeleteObjectLeavesOthers(remote.state, name);
      r := remote.DeleteObject(name);
      LeavesOthersTwice(before, unlisted, remote.state, name);
    }

    /**
     * Deletes an object: first the copies of its chunks, then the chunk records, then the object record. On success
     * nothing of it is left in the metadata, nor on any recorded replica whose node answers; other copies are not touched.
     */
    method Delete(name: string) returns (r: Result<nat>, ghost targets: seq<(u64, Address)>)
      requires Referential(remote.state.meta)
      modifies remote
      ensures Referential(remote.state.meta) && LeavesOthers(old(remote.state), remote.state, name)
      ensures r.Ok? ==> name in old(remote.state).meta.objects && name !in remote.state.meta.objects
      ensures r.Ok? ==> forall id | id in old(remote.state).meta.objects[name].chunks :: id !in remote.state.meta.chunks
      ensures remote.metadataUp ==> (r.Ok? <==> Readable(old(remote.state).meta, name))
      ensures r.Ok? ==> AllReplicas(old(remote.state).meta, name, targets)
      ensures r.Ok? ==> Erased(old(remote.state), remote.state, remote.up, targets, r.value)
      ensures !Readable(old(remote.state).meta, name) ==> remote.state == old(remote.state)
    {
      ghost var before := remote.state;
      var reply := remote.GetObject(name);
      if reply.Err? {
        return Err(reply.error), [];
      }
      var refs := reply.value;
      ghost var ids := remote.state.meta.objects[name].chunks;
      var wanted := Targets(refs);
      TargetsExactly(remote.state.meta, name);
      targets := wanted;
      var erased := EraseCopies(name, wanted);
      ghost var bare := remote.state;
      var listed := seq(|refs|, i requires 0 <= i < |refs| => refs[i].id);
      assert listed == ids;
      var removed := RemoveRecords(name, listed);
      LeavesOthersTwice(before, bare, remote.state, name);
      if removed.Err? {
        return Err(removed.error), wanted;
      }
      return Ok(erased), wanted;
    }
  }

  // ---------------------------------------------------------------------------------------
  // Supporting facts
  // ---------------------------------------------------------------------------------------

  lemma {:induction false} StillReady(a: ClusterState, b: ClusterState, metadataUp: bool, up: set<Address>, n: nat)
    requires n > 0 && ReadyFor(a, metadataUp, up, n)
    ensures ReadyFor(a, metadataUp, up, 1)
    ensures OneMoreChunk(a, b) ==> ReadyFor(b, metadataUp, up, n - 1)
  {
  }

  /** A chunk id that is free among the records is free on every disk. */
  lemma {:induction false} ReadyToStore(a: ClusterState, b: ClusterState, metadataUp: bool, up: set<Address>, id: u64, name: string, node: u64)
    requires ValidDraw(a.meta, Draw(id, Some(node)))
    requires b == a.(meta := AllocateChunk(a.meta, name, Draw(id, Some(node))).state)
    ensures b.meta.nodes == a.meta.nodes && b.meta.objects == a.meta.objects
    ensures b.meta.chunks.Keys == a.meta.chunks.Keys + {id} && b.meta.chunks[id].status.Pending?
    ensures ReadyFor(a, metadataUp, up, 1) ==> a.meta.nodes[node] in up && b.CanStore(a.meta.nodes[node], id)
  {
    assert a.Copy(a.meta.nodes[node], id).Some? ==> !ReadyFor(a, metadataUp, up, 1);
  }

  lemma {:induction false} WrittenLeavesAll(before: ClusterState, reserved: ClusterState, written: ClusterState, id: u64, name: string, node: u64,
                                            address: Address, buf: seq<byte>, pieces: seq<seq<byte>>)
    requires Referential(before.meta) && id !in before.meta.chunks && Holds(before, name, pieces)
    requires ValidDraw(before.meta, Draw(id, Some(node)))
    requires reserved == before.(meta := AllocateChunk(before.meta, name, Draw(id, Some(node))).state)
    requires reserved.CanStore(address, id) && written == reserved.Store(address, id, buf)
    ensures LeavesOthers(before, written, name) && Holds(written, name, pieces) && written.Copy(address, id) == Some(buf)
  {
    FreshChunkLeavesAll(before, written, id, name, pieces);
  }

  lemma {:induction false} ReservedForStoring(a: ClusterState, b: ClusterState, metadataUp: bool, up: set<Address>,
                                              id: u64, name: string, node: u64, pieces: seq<seq<byte>>)
    requires Referential(a.meta) && Holds(a, name, pieces) && ValidDraw(a.meta, Draw(id, Some(node)))
    requires b == a.(meta := AllocateChunk(a.meta, name, Draw(id, Some(node))).state)
    ensures Referential(b.meta) && LeavesOthers(a, b, name) && Holds(b, name, pieces)
    ensures b.disks == a.disks && b.meta.nodes == a.meta.nodes && b.meta.objects == a.meta.objects
    ensures b.meta.chunks.Keys == a.meta.chunks.Keys + {id} && b.meta.chunks[id].status.Pending?
    ensures ReadyFor(a, metadataUp, up, 1) ==> a.meta.nodes[node] in up && b.CanStore(a.meta.nodes[node], id)
  {
    AllocateChunkKeeps(a.meta, name, Draw(id, Some(node)));
    FreshChunkLeavesAll(a, b, id, name, pieces);
    ReadyToStore(a, b, metadataUp, up, id, name, node);
  }

  lemma {:induction false} StoredIsOneMore(before: ClusterState, reserved: ClusterState, written: ClusterState, after: ClusterState,
                                           id: u64, name: string, checksum: u32, node: u64, buf: seq<byte>)
    requires reserved.disks == before.disks && reserved.meta.nodes == before.meta.nodes && node in before.meta.nodes
    requires reserved.meta.chunks.Keys == before.meta.chunks.Keys + {id}
    requires reserved.CanStore(before.meta.nodes[node], id) && written == reserved.Store(before.meta.nodes[node], id, buf)
    requires ConfirmChunk(written.meta, id, name, checksum, node).result.Ok?
    requires after == written.(meta := ConfirmChunk(written.meta, id, name, checksum, node).state)
    ensures OneMoreChunk(before, after)
  {
    assert after.meta.chunks.Keys == before.meta.chunks.Keys + {id};
    assert |after.meta.chunks| == |after.meta.chunks.Keys| && |before.meta.chunks| == |before.meta.chunks.Keys|;
  }

  /** Creating the object changes nothing in this. */
  lemma {:induction false} CreatedIsReady(a: ClusterState, metadataUp: bool, up: set<Address>, n: nat, checksum: u32, name: string)
    ensures ReadyFor(a.(meta := Metadata.PutObject(a.meta, checksum, name).state), metadataUp, up, n) <==> ReadyFor(a, metadataUp, up, n)
  {
    var b := a.(meta := Metadata.PutObject(a.meta, checksum, name).state);
    assert forall address, id :: b.Copy(address, id) == a.Copy(address, id);
  }

  /** The next part extends what has come of the body so far. */
  lemma {:induction false} PartOfBody(parts: seq<seq<byte>>, i: nat, fed: seq<byte>, body: seq<byte>)
    requires i < |parts| && fed == Flatten(parts[..i]) && body == Flatten(parts)
    ensures Flatten(parts[..i + 1]) == fed + parts[i] <= body && |fed| + |parts[i]| <= |body|
  {
    FlattenNext(parts, i);
    FlattenFront(parts, i + 1);
  }

  /** One chunk moves from the front of the buffer to the end of what is flushed. */
  lemma {:induction false} DrainOne(done: seq<seq<byte>>, rest: seq<byte>, n: nat)
    requires n <= |rest|
    ensures Flatten(done + [rest[..n]]) + rest[n..] == Flatten(done) + rest
  {
    FlattenSnoc(done, rest[..n]);
    assert rest == rest[..n] + rest[n..];
  }

  /** Full chunks that start a body are its first chunks. */
  lemma {:induction false} FrontOfBody(done: seq<seq<byte>>, body: seq<byte>, n: nat)
    requires n > 0 && FullSize(done, n) && Flatten(done) <= body
    ensures done <= ChunksOf(body, n)
  {
    var rest := body[|Flatten(done)|..];
    assert body == Flatten(done) + rest;
    FullPartsFirst(done, rest, n);
  }

  /** States that differ in one chunk id that no object lists, in record and copies, show the same objects. */
  lemma {:induction false} FreshChunkLeavesAll(before: ClusterState, after: ClusterState, id: u64, name: string, pieces: seq<seq<byte>>)
    requires Referential(before.meta) && id !in before.meta.chunks && Holds(before, name, pieces)
    requires after.meta.objects == before.meta.objects && after.meta.nodes == before.meta.nodes
    requires forall other | other != id :: SameChunk(before, after, other)
    ensures LeavesOthers(before, after, name) && Holds(after, name, pieces)
  {
    forall x | x in before.meta.objects
      ensures id !in before.meta.objects[x].chunks
    {
      Unlisted(before.meta, id, x);
    }
    var ids := before.meta.objects[name].chunks;
    forall i | 0 <= i < |pieces|
      ensures ChunkHolds(after, ids[i], pieces[i])
    {
      assert ids[i] in ids;
      SameChunkHolds(before, after, ids[i], pieces[i]);
    }
  }

  /** Confirming a written chunk appends it to what the object holds. */
  lemma {:induction false} ConfirmedChunkIsAppended(before: ClusterState, written: ClusterState, after: ClusterState, id: u64, name: string, node: u64,
                                 buf: seq<byte>, pieces: seq<seq<byte>>)
    requires Referential(before.meta) && id !in before.meta.chunks && name in before.meta.objects
    requires LeavesOthers(before, written, name) && Holds(written, name, pieces)
    requires written.meta.objects == before.meta.objects && node in written.meta.nodes
    requires written.Copy(written.meta.nodes[node], id) == Some(buf)
    requires ConfirmChunk(written.meta, id, name, Crc32.Checksum(buf), node).result.Ok?
    requires after == written.(meta := ConfirmChunk(written.meta, id, name, Crc32.Checksum(buf), node).state)
    ensures LeavesOthers(before, after, name) && Holds(after, name, pieces + [buf])
  {
    forall x | x in before.meta.objects
      ensures id !in before.meta.objects[x].chunks
    {
      Unlisted(before.meta, id, x);
    }
    forall other | other != id
      ensures SameChunk(written, after, other)
    {
    }
    assert LeavesOthers(written, after, name);
    LeavesOthersTwice(before, written, after, name);
    var ids := written.meta.objects[name].chunks;
    forall i | 0 <= i < |pieces|
      ensures ChunkHolds(after, ids[i], pieces[i])
    {
      assert ids[i] in ids;
      SameChunkHolds(written, after, ids[i], pieces[i]);
    }
    assert ChunkHolds(after, id, buf);
    assert after.meta.objects[name].chunks == ids + [id];
  }

  lemma {:induction false} DeleteObjectLeavesOthers(before: ClusterState, name: string)
    requires Referential(before.meta)
    ensures LeavesOthers(before, before.(meta := Metadata.DeleteObject(before.meta, name).state), name)
  {
    var after := before.(meta := Metadata.DeleteObject(before.meta, name).state);
    forall other, id | other in before.meta.objects && other != name && id in before.meta.objects[other].chunks
      ensures SameChunk(before, after, id)
    {
      if name in before.meta.objects && id in before.meta.objects[name].chunks {
        ListsAreDisjoint(before.meta, name, other, id);
      }
    }
  }

  /** Setting checksum and size changes the header and nothing else of the upload. */
  lemma {:induction false} ChecksumIsSet(origin: ClusterState, before: ClusterState, name: string, header: MetaObject, checksum: u32, size: u64,
                      pieces: seq<seq<byte>>)
    requires Uploading(origin, before, name, header, pieces)
    ensures var after := before.(meta := Metadata.UpdateObjectChecksum(before.meta, name, checksum, size).state);
            Uploading(origin, after, name, header.(checksum := checksum, totalSize := size), pieces)
  {
    var after := before.(meta := Metadata.UpdateObjectChecksum(before.meta, name, checksum, size).state);
    var ids := before.meta.objects[name].chunks;
    forall i | 0 <= i < |pieces|
      ensures ChunkHolds(after, ids[i], pieces[i])
    {
      assert SameChunk(before, after, ids[i]);
      SameChunkHolds(before, after, ids[i], pieces[i]);
    }
    assert LeavesOthers(before, after, name);
    LeavesOthersTwice(origin, before, after, name);
  }

  lemma {:induction false} EraseLeavesOthers(before: ClusterState, name: string, id: u64, address: Address)
    requires Referential(before.meta) && name in before.meta.objects && id in before.meta.objects[name].chunks
    requires address in before.disks
    ensures LeavesOthers(before, before.Erase(address, id), name)
  {
    forall other, x | other in before.meta.objects && other != name && x in before.meta.objects[other].chunks
      ensures SameChunk(before, before.Erase(address, id), x)
    {
      if x == id {
        ListsAreDisjoint(before.meta, name, other, id);
      }
    }
  }

  lemma {:induction false} OneRecordTaken(before: map<u64, MetaChunk>, was: map<u64, MetaChunk>, after: map<u64, MetaChunk>,
                                          ids: seq<u64>, id: u64, sure: bool)
    requires RecordsTaken(before, was, ids, sure) && (after == was - {id} || (!sure && after == was))
    ensures RecordsTaken(before, after, ids + [id], sure)
  {
    forall x: u64
      ensures RecordOf(after, x) == RecordOf(before, x) || (x in ids + [id] && x !in after)
    {
      assert RecordOf(was, x) == RecordOf(before, x) || (x in ids && x !in was);
    }
  }

  lemma {:induction false} DeleteRecordLeavesOthers(before: ClusterState, name: string, id: u64, ids: seq<u64>)
    requires Referential(before.meta) && id in ids && OwnOrGone(before.meta, name, ids)
    ensures var after := before.(meta := Metadata.DeleteChunk(before.meta, id).state);
            LeavesOthers(before, after, name) && OwnOrGone(after.meta, name, ids) && after.meta.chunks == before.meta.chunks - {id}
  {
    var after := before.(meta := Metadata.DeleteChunk(before.meta, id).state);
    WithoutElements(before.meta.objects[name].chunks, id);
    forall other, x | other in before.meta.objects && other != name && x in before.meta.objects[other].chunks
      ensures SameChunk(before, after, x)
    {
      if x == id && id in before.meta.chunks {
        Unlisted(before.meta, id, other);
      }
    }
  }

  /** An object that holds some pieces can be looked up, with every chunk and replica accounted for. */
  lemma {:induction false} HeldIsResolvable(c: ClusterState, name: string, pieces: seq<seq<byte>>)
    requires Holds(c, name, pieces)
    ensures Resolvable(c.meta, c.meta.objects[name].chunks)
  {
    var ids := c.meta.objects[name].chunks;
    forall id | id in ids
      ensures id in c.meta.chunks && forall n | n in c.meta.chunks[id].storageNodes :: n in c.meta.nodes
    {
      var i :| 0 <= i < |ids| && ids[i] == id;
      assert ChunkHolds(c, ids[i], pieces[i]);
    }
  }

  /** If moreover every chunk has a replica that answers, the download succeeds. */
  lemma {:induction false} HeldIsReachable(c: ClusterState, up: set<Address>, name: string, pieces: seq<seq<byte>>)
    requires Holds(c, name, pieces)
    requires forall id | id in c.meta.objects[name].chunks ::
               id in c.meta.chunks && exists n :: n in c.meta.chunks[id].storageNodes && n in c.meta.nodes && c.meta.nodes[n] in up
    ensures AllReachable(c, up, name)
  {
    HeldIsResolvable(c, name, pieces);
    var ids := c.meta.objects[name].chunks;
    var refs := Refs(c.meta, ids);
    forall ref | ref in refs
      ensures Reachable(c, up, ref)
    {
      var i :| 0 <= i < |refs| && refs[i] == ref;
      assert ids[i] in ids && ChunkHolds(c, ids[i], pieces[i]);
      var nodes := c.meta.chunks[ids[i]].storageNodes;
      var n :| n in nodes && n in c.meta.nodes && c.meta.nodes[n] in up;
      var k :| 0 <= k < |nodes| && nodes[k] == n;
      assert ref.addresses[k] == c.meta.nodes[n];
    }
  }

  /** What an upload stored, batch or streamed, is what a download returns: the body that was sent. */
  lemma {:induction false} UploadedComesBack(c: ClusterState, name: string, body: seq<byte>, chunkSize: nat, data: seq<byte>)
    requires chunkSize > 0 && Holds(c, name, ChunksOf(body, chunkSize))
    requires forall pieces :: Holds(c, name, pieces) ==> data == Flatten(pieces)
    ensures data == body
  {
    ChunksFlatten(body, chunkSize);
  }

  /** Whichever replica is read for the chunk at position `i`, it gives the piece at that position. */
  lemma {:induction false} AnswerIsPiece(c: ClusterState, up: set<Address>, name: string, pieces: seq<seq<byte>>, i: nat, data: seq<byte>)
    requires Holds(c, name, pieces) && i < |pieces| && Readable(c.meta, name) && ReadFrom(c, up, RefsOf(c.meta, name)[i], data)
    ensures data == pieces[i]
  {
    var id := c.meta.objects[name].chunks[i];
    assert ChunkHolds(c, id, pieces[i]);
    var ref := RefsOf(c.meta, name)[i];
    var k: nat :| ReadAt(c, up, ref, k, data);
    assert c.meta.chunks[id].storageNodes[k] in c.meta.chunks[id].storageNodes;
  }

  /** So what is read in order is a front of the pieces that the object holds. */
  lemma {:induction false} PartsArePieces(c: ClusterState, up: set<Address>, name: string, parts: seq<seq<byte>>)
    requires Readable(c.meta, name) && ReadInOrder(c, up, RefsOf(c.meta, name), parts)
    ensures forall pieces | Holds(c, name, pieces) :: parts <= pieces
    ensures |parts| == |c.meta.objects[name].chunks| ==> forall pieces | Holds(c, name, pieces) :: pieces == parts
  {
    forall pieces | Holds(c, name, pieces)
      ensures parts <= pieces && |pieces| == |c.meta.objects[name].chunks|
    {
      forall i | 0 <= i < |parts|
        ensures parts[i] == pieces[i]
      {
        AnswerIsPiece(c, up, name, pieces, i, parts[i]);
      }
    }
  }

  /** One more target has been tried. */
  lemma {:induction false} ErasedOneMore(a: ClusterState, was: ClusterState, b: ClusterState, up: set<Address>,
                                         targets: seq<(u64, Address)>, t: (u64, Address), erased: nat, ok: bool)
    requires Erased(a, was, up, targets, erased)
    requires if ok then t.1 in was.disks && b == was.Erase(t.1, t.0) else b == was && !Erasable(a, up, t)
    ensures Erased(a, b, up, targets + [t], if ok then erased + 1 else erased)
  {
    forall address, id: u64
      ensures b.Copy(address, id) == was.Copy(address, id) || (b.Copy(address, id).None? && (id, address) == t)
      ensures ok && (id, address) == t ==> b.Copy(address, id).None?
    {
    }
    assert t in targets + [t];
  }
}
