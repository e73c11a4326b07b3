/**
 * What every operation of the metadata store keeps, on success and on every error path:
 * the referential invariant, and the view of the objects whenever the operation does not save.
 */
module MetadataInvariants {
  import opened Base
  import opened Metadata

  // ---------------------------------------------------------------------------------------
  // Sequences of ids
  // ---------------------------------------------------------------------------------------

  lemma {:induction false} WithoutElements(ids: seq<u64>, id: u64)
    ensures forall x :: x in Without(ids, id) <==> x in ids && x != id
    ensures Distinct(ids) ==> Distinct(Without(ids, id))
    ensures id !in ids ==> Without(ids, id) == ids
  {
    if ids != [] {
      WithoutElements(ids[1..], id);
      assert ids == [ids[0]] + ids[1..];
      var rest := Without(ids[1..], id);
      assert forall j | 0 <= j < |rest| :: rest[j] in rest;
    }
  }

  // ---------------------------------------------------------------------------------------
  // Fragments that migration ingests
  // ---------------------------------------------------------------------------------------

  ghost predicate NoConflicts(chunks: seq<MetaChunk>) {
    forall i, j | 0 <= i < j < |chunks| && chunks[i].id == chunks[j].id :: chunks[i] == chunks[j]
  }

  /** Objects of different names, and sound, confirmed chunks that include every listed one; a chunk sent twice is sent alike. */
  ghost predicate Fragment(objects: seq<MetaObject>, chunks: seq<MetaChunk>) {
    && (forall i, j | 0 <= i < j < |objects| :: objects[i].name != objects[j].name)
    && NoConflicts(chunks)
    && (forall i | 0 <= i < |chunks| :: ChunkSound(chunks[i]) && chunks[i].status == Confirmed)
    && (forall i | 0 <= i < |objects| :: Distinct(objects[i].chunks))
    && (forall i, id | 0 <= i < |objects| && id in objects[i].chunks ::
          exists k :: 0 <= k < |chunks| && chunks[k].id == id && chunks[k].objectName == objects[i].name)
  }

  /** No local object lists a chunk that the fragment ascribes to another name. */
  ghost predicate NoForeignListing(s: MetaState, chunks: seq<MetaChunk>) {
    forall name, k | name in s.objects && 0 <= k < |chunks| && chunks[k].id in s.objects[name].chunks ::
      chunks[k].objectName == name
  }

  lemma {:induction false} AddObjectsEntries(objects: map<string, MetaObject>, more: seq<MetaObject>)
    requires forall i, j | 0 <= i < j < |more| :: more[i].name != more[j].name
    ensures forall i | 0 <= i < |more| ::
              more[i].name in AddObjects(objects, more) && AddObjects(objects, more)[more[i].name] == more[i]
    ensures forall name | name in AddObjects(objects, more) ::
              (exists i :: 0 <= i < |more| && more[i].name == name) || (name in objects && AddObjects(objects, more)[name] == objects[name])
    ensures forall name | name in objects :: name in AddObjects(objects, more)
  {
    if more != [] {
      AddObjectsEntries(objects, more[..|more| - 1]);
    }
  }

  lemma {:induction false} AddChunksEntries(chunks: map<u64, MetaChunk>, more: seq<MetaChunk>)
    requires NoConflicts(more)
    ensures forall i | 0 <= i < |more| ::
              more[i].id in AddChunks(chunks, more) && AddChunks(chunks, more)[more[i].id] == more[i]
    ensures forall id | id in AddChunks(chunks, more) ::
              (exists i :: 0 <= i < |more| && more[i].id == id) || (id in chunks && AddChunks(chunks, more)[id] == chunks[id])
    ensures forall id | id in chunks :: id in AddChunks(chunks, more)
  {
    if more != [] {
      AddChunksEntries(chunks, more[..|more| - 1]);
    }
  }

  // ---------------------------------------------------------------------------------------
  // The referential invariant, operation by operation
  // ---------------------------------------------------------------------------------------

  /** An object stays sound while its listed chunks keep their records' status and name. */
  lemma {:induction false} ObjectStaysSound(o: MetaObject, before: map<u64, MetaChunk>, after: map<u64, MetaChunk>)
    requires ObjectSound(o, before)
    requires forall id | id in o.chunks && id in before ::
               id in after && after[id].status == before[id].status && after[id].objectName == before[id].objectName
    ensures ObjectSound(o, after)
  {
    forall i | 0 <= i < |o.chunks|
      ensures o.chunks[i] in after && after[o.chunks[i]].status == Confirmed && after[o.chunks[i]].objectName == o.name
    {
      assert o.chunks[i] in o.chunks;
    }
  }

  /** A chunk that is missing, pending or named otherwise is in no list. */
  lemma {:induction false} Unlisted(s: MetaState, id: u64, name: string)
    requires Referential(s) && name in s.objects
    requires id !in s.chunks || s.chunks[id].status == Pending || s.chunks[id].objectName != name
    ensures id !in s.objects[name].chunks
  {
  }

  /** Replacing or adding one unlisted, sound chunk. */
  lemma {:induction false} SetUnlistedChunk(s: MetaState, c: MetaChunk)
    requires Referential(s) && ChunkSound(c)
    requires c.id !in s.chunks || s.chunks[c.id].status == Pending
    ensures Referential(s.(chunks := s.chunks[c.id := c]))
  {
    var t := s.(chunks := s.chunks[c.id := c]);
    forall name | name in t.objects
      ensures ObjectSound(t.objects[name], t.chunks)
    {
      Unlisted(s, c.id, name);
      ObjectStaysSound(s.objects[name], s.chunks, t.chunks);
    }
  }

  lemma {:induction false} AddToListKeeps(s: MetaState, name: string, id: u64)
    requires Referential(s) && name in s.objects && id !in s.objects[name].chunks
    requires id in s.chunks && s.chunks[id].status == Confirmed && s.chunks[id].objectName == name
    ensures Referential(AddToList(s, name, id))
  {
    var o := s.objects[name];
    assert ObjectSound(o.(chunks := o.chunks + [id]), s.chunks);
  }

  lemma {:induction false} PutChunkKeeps(s: MetaState, name: string, checksum: u32, draw: Draw)
    requires Referential(s) && ValidDraw(s, draw)
    ensures Referential(PutChunk(s, name, checksum, draw).state)
  {
    if draw.node.Some? {
      var c := MetaChunk(draw.id, name, checksum, [draw.node.value], Confirmed);
      SetUnlistedChunk(s, c);
      if name in s.objects {
        Unlisted(s, draw.id, name);
        AddToListKeeps(s.(chunks := s.chunks[c.id := c]), name, draw.id);
      }
    }
  }

  lemma {:induction false} AllocateChunkKeeps(s: MetaState, name: string, draw: Draw)
    requires Referential(s) && ValidDraw(s, draw)
    ensures Referential(AllocateChunk(s, name, draw).state)
  {
    if draw.node.Some? {
      SetUnlistedChunk(s, MetaChunk(draw.id, name, 0, [], Pending));
    }
  }

  lemma {:induction false} ConfirmChunkKeeps(s: MetaState, id: u64, name: string, checksum: u32, node: u64)
    requires Referential(s)
    ensures Referential(ConfirmChunk(s, id, name, checksum, node).state)
  {
    if ConfirmChunk(s, id, name, checksum, node).saves {
      var c := MetaChunk(id, name, checksum, [node], Confirmed);
      SetUnlistedChunk(s, c);
      Unlisted(s, id, name);
      AddToListKeeps(s.(chunks := s.chunks[id := c]), name, id);
    }
  }

  lemma {:induction false} DeleteObjectKeeps(s: MetaState, name: string)
    requires Referential(s)
    ensures Referential(DeleteObject(s, name).state)
  {
    if name in s.objects {
      var t := DeleteObject(s, name).state;
      forall other | other in t.objects
        ensures ObjectSound(t.objects[other], t.chunks)
      {
        forall id | id in t.objects[other].chunks
          ensures id !in s.objects[name].chunks
        {
          if id in s.objects[name].chunks {
            ListsAreDisjoint(s, name, other, id);
          }
        }
        ObjectStaysSound(s.objects[other], s.chunks, t.chunks);
      }
    }
  }

  lemma {:induction false} DeleteChunkKeeps(s: MetaState, id: u64)
    requires Referential(s)
    ensures Referential(DeleteChunk(s, id).state)
  {
    if id in s.chunks {
      var t := DeleteChunk(s, id).state;
      forall name | name in t.objects
        ensures t.objects[name].name == name && ObjectSound(t.objects[name], t.chunks)
      {
        var o := s.objects[name];
        WithoutElements(o.chunks, id);
        if name != s.chunks[id].objectName {
          Unlisted(s, id, name);
        }
        var shorter := o.(chunks := Without(o.chunks, id));
        assert t.objects[name] == shorter;
        assert forall i | 0 <= i < |shorter.chunks| :: shorter.chunks[i] in shorter.chunks;
        assert ObjectSound(shorter, s.chunks);
        ObjectStaysSound(shorter, s.chunks, t.chunks);
      }
    }
  }

  lemma {:induction false} AddChunkReplicaKeeps(s: MetaState, id: u64, node: u64)
    requires Referential(s)
    ensures Referential(AddChunkReplica(s, id, node).state)
  {
    var t := AddChunkReplica(s, id, node).state;
    forall name | name in t.objects
      ensures ObjectSound(t.objects[name], t.chunks)
    {
      ObjectStaysSound(s.objects[name], s.chunks, t.chunks);
    }
  }

  lemma {:induction false} IngestPartitionKeeps(s: MetaState, objects: seq<MetaObject>, chunks: seq<MetaChunk>)
    requires Referential(s) && Fragment(objects, chunks) && NoForeignListing(s, chunks)
    ensures Referential(IngestPartition(s, objects, chunks).state)
  {
    var t := IngestPartition(s, objects, chunks).state;
    AddObjectsEntries(s.objects, objects);
    AddChunksEntries(s.chunks, chunks);
    forall name | name in t.objects
      ensures t.objects[name].name == name && ObjectSound(t.objects[name], t.chunks)
    {
      var o := t.objects[name];
      forall i | 0 <= i < |o.chunks|
        ensures o.chunks[i] in t.chunks
        ensures t.chunks[o.chunks[i]].status == Confirmed && t.chunks[o.chunks[i]].objectName == name
      {
        assert o.chunks[i] in o.chunks;
      }
    }
  }

  lemma {:induction false} RemoveNamedKeeps(s: MetaState, names: seq<string>)
    requires Referential(s)
    ensures Referential(RemoveNamed(s, names))
  {
    if names != [] {
      RemoveNamedKeeps(s, names[..|names| - 1]);
      DeleteObjectKeeps(RemoveNamed(s, names[..|names| - 1]), names[|names| - 1]);
    }
  }

  // ---------------------------------------------------------------------------------------
  // All operations
  // ---------------------------------------------------------------------------------------

  datatype Command =
    | PutObjectCmd(checksum: u32, name: string)
    | DeleteObjectCmd(name: string)
    | PutChunkCmd(name: string, checksum: u32, draw: Draw)
    | AllocateChunkCmd(name: string, draw: Draw)
    | ConfirmChunkCmd(id: u64, name: string, checksum: u32, node: u64)
    | DeleteChunkCmd(id: u64)
    | UpdateChecksumCmd(name: string, checksum: u32, totalSize: u64)
    | AddReplicaCmd(id: u64, node: u64)
    | ConstructNodeCmd(node: u64, address: Address, wellFormed: bool)
    | DeleteNodeCmd(node: u64)
    | IngestCmd(objects: seq<MetaObject>, chunks: seq<MetaChunk>)
    | RemoveObjectsCmd(names: seq<string>)

  /** The caller's obligations: draws are valid, and what is ingested is a well-formed fragment. */
  ghost predicate Permitted(s: MetaState, cmd: Command) {
    match cmd
    case PutChunkCmd(_, _, draw) => ValidDraw(s, draw)
    case AllocateChunkCmd(_, draw) => ValidDraw(s, draw)
    case ConstructNodeCmd(node, _, _) => node !in s.nodes
    case IngestCmd(objects, chunks) => Fragment(objects, chunks) && NoForeignListing(s, chunks)
    case _ => true
  }

  datatype Effect = Effect(state: MetaState, saves: bool)

  function EffectOf<T>(o: Outcome<T>): Effect {
    Effect(o.state, o.saves)
  }

  ghost function Exec(s: MetaState, cmd: Command): Effect
    requires Permitted(s, cmd)
  {
    match cmd
    case PutObjectCmd(checksum, name) => EffectOf(PutObject(s, checksum, name))
    case DeleteObjectCmd(name) => EffectOf(DeleteObject(s, name))
    case PutChunkCmd(name, checksum, draw) => EffectOf(PutChunk(s, name, checksum, draw))
    case AllocateChunkCmd(name, draw) => EffectOf(AllocateChunk(s, name, draw))
    case ConfirmChunkCmd(id, name, checksum, node) => EffectOf(ConfirmChunk(s, id, name, checksum, node))
    case DeleteChunkCmd(id) => EffectOf(DeleteChunk(s, id))
    case UpdateChecksumCmd(name, checksum, size) => EffectOf(UpdateObjectChecksum(s, name, checksum, size))
    case AddReplicaCmd(id, node) => EffectOf(AddChunkReplica(s, id, node))
    case ConstructNodeCmd(node, address, ok) => EffectOf(ConstructStorageNode(s, node, address, ok))
    case DeleteNodeCmd(node) => EffectOf(DeleteStorageNode(s, node))
    case IngestCmd(objects, chunks) => EffectOf(IngestPartition(s, objects, chunks))
    case RemoveObjectsCmd(names) => EffectOf(RemoveObjects(s, names))
  }

  /** Every operation, whether it succeeds or fails, keeps the referential invariant. */
  lemma {:induction false} ExecKeepsReferential(s: MetaState, cmd: Command)
    requires Referential(s) && Permitted(s, cmd)
    ensures Referential(Exec(s, cmd).state)
  {
    match cmd
    case PutObjectCmd(checksum, name) =>
    case DeleteObjectCmd(name) => DeleteObjectKeeps(s, name);
    case PutChunkCmd(name, checksum, draw) => PutChunkKeeps(s, name, checksum, draw);
    case AllocateChunkCmd(name, draw) => AllocateChunkKeeps(s, name, draw);
    case ConfirmChunkCmd(id, name, checksum, node) => ConfirmChunkKeeps(s, id, name, checksum, node);
    case DeleteChunkCmd(id) => DeleteChunkKeeps(s, id);
    case UpdateChecksumCmd(name, checksum, size) =>
    case AddReplicaCmd(id, node) => AddChunkReplicaKeeps(s, id, node);
    case ConstructNodeCmd(node, address, ok) =>
    case DeleteNodeCmd(node) =>
    case IngestCmd(objects, chunks) => IngestPartitionKeeps(s, objects, chunks);
    case RemoveObjectsCmd(names) => RemoveNamedKeeps(s, names);
  }

  // ---------------------------------------------------------------------------------------
  // The view of the objects
  // ---------------------------------------------------------------------------------------

  /** An object as a reader gets it: checksum, size and the records of its chunks in order. */
  datatype ObjectView = ObjectView(checksum: u32, totalSize: u64, records: seq<Option<MetaChunk>>)

  function RecordOf(chunks: map<u64, MetaChunk>, id: u64): Option<MetaChunk> {
    if id in chunks then Some(chunks[id]) else None
  }

  function ViewOf(o: MetaObject, chunks: map<u64, MetaChunk>): (v: ObjectView)
    ensures |v.records| == |o.chunks|
  {
    ObjectView(o.checksum, o.totalSize, seq(|o.chunks|, i requires 0 <= i < |o.chunks| => RecordOf(chunks, o.chunks[i])))
  }

  function View(s: MetaState): map<string, ObjectView> {
    map name | name in s.objects :: ViewOf(s.objects[name], s.chunks)
  }

  lemma {:induction false} SameRecordsSameView(o: MetaObject, a: map<u64, MetaChunk>, b: map<u64, MetaChunk>)
    requires forall id | id in o.chunks :: RecordOf(a, id) == RecordOf(b, id)
    ensures ViewOf(o, a) == ViewOf(o, b)
  {
    forall i | 0 <= i < |o.chunks|
      ensures ViewOf(o, a).records[i] == ViewOf(o, b).records[i]
    {
      assert o.chunks[i] in o.chunks;
    }
  }

  /** A state that differs in one unlisted chunk and in the registry only shows the same objects. */
  lemma {:induction false} UnlistedChunkUnseen(s: MetaState, t: MetaState, id: u64)
    requires t.objects == s.objects
    requires forall other | other != id :: RecordOf(t.chunks, other) == RecordOf(s.chunks, other)
    requires forall name | name in s.objects :: id !in s.objects[name].chunks
    ensures View(t) == View(s)
  {
    forall name | name in s.objects
      ensures ViewOf(s.objects[name], t.chunks) == ViewOf(s.objects[name], s.chunks)
    {
      SameRecordsSameView(s.objects[name], s.chunks, t.chunks);
    }
  }

  /**
   * An operation that does not save leaves the view of the objects alone, although allocating a
   * chunk, putting one for a missing object and deleting one of a missing object change memory.
   */
  lemma {:induction false} NoSaveNoViewChange(s: MetaState, cmd: Command)
    requires Referential(s) && Permitted(s, cmd) && !Exec(s, cmd).saves
    ensures View(Exec(s, cmd).state) == View(s)
  {
    var t := Exec(s, cmd).state;
    match cmd
    case PutChunkCmd(name, checksum, draw) => UnlistedChunkUnseen(s, t, draw.id);
    case AllocateChunkCmd(name, draw) => UnlistedChunkUnseen(s, t, draw.id);
    case DeleteChunkCmd(id) =>
      if id in s.chunks {
        forall name | name in s.objects
          ensures id !in s.objects[name].chunks
        {
          Unlisted(s, id, name);
        }
        UnlistedChunkUnseen(s, t, id);
      }
    case _ =>
      assert t.objects == s.objects && t.chunks == s.chunks;
  }

  // ---------------------------------------------------------------------------------------
  // What the operations mean to a reader, and what undoes what
  // ---------------------------------------------------------------------------------------

  /** A chunk id that was reserved for `name` and then confirmed is the object's new last record. */
  lemma {:induction false} ConfirmAppendsRecord(s: MetaState, id: u64, name: string, checksum: u32, node: u64)
    requires Referential(s) && ConfirmChunk(s, id, name, checksum, node).saves
    ensures var t := ConfirmChunk(s, id, name, checksum, node).state;
            var v := View(s)[name];
            View(t) == View(s)[name := v.(records := v.records + [Some(MetaChunk(id, name, checksum, [node], Confirmed))])]
  {
    var t := ConfirmChunk(s, id, name, checksum, node).state;
    forall other | other in s.objects
      ensures ViewOf(s.objects[other], t.chunks) == ViewOf(s.objects[other], s.chunks)
    {
      Unlisted(s, id, other);
      SameRecordsSameView(s.objects[other], s.chunks, t.chunks);
    }
    var v, w := View(s)[name], View(t)[name];
    assert w.records[..|v.records|] == v.records by {
      forall i | 0 <= i < |v.records|
        ensures w.records[i] == v.records[i]
      {
        assert v.records[i] == ViewOf(s.objects[name], t.chunks).records[i];
      }
    }
    assert w.records == v.records + [Some(t.chunks[id])];
  }

  /** Deleting a chunk right after confirming it leaves what was there before its id was reserved. */
  lemma {:induction false} DeleteUndoesConfirm(s: MetaState, id: u64, name: string, checksum: u32, node: u64)
    requires Referential(s) && ConfirmChunk(s, id, name, checksum, node).saves
    ensures DeleteChunk(ConfirmChunk(s, id, name, checksum, node).state, id).state == s.(chunks := s.chunks - {id})
  {
    var o := s.objects[name];
    Unlisted(s, id, name);
    WithoutElements(o.chunks, id);
    WithoutAppend(o.chunks, [id], id);
    assert Without(o.chunks + [id], id) == o.chunks + Without([id], id) == o.chunks;
    var t := ConfirmChunk(s, id, name, checksum, node).state;
    assert DeleteChunk(t, id).state.objects == s.objects;
    assert DeleteChunk(t, id).state.chunks == s.chunks - {id};
  }

  lemma {:induction false} WithoutAppend(a: seq<u64>, b: seq<u64>, id: u64)
    ensures Without(a + b, id) == Without(a, id) + Without(b, id)
  {
    if a == [] {
      assert a + b == b;
    } else {
      WithoutAppend(a[1..], b, id);
      assert (a + b)[1..] == a[1..] + b;
    }
  }

  /** Deleting an object removes it from the view, and touches no other object. */
  lemma {:induction false} DeleteObjectRemovesView(s: MetaState, name: string)
    requires Referential(s) && name in s.objects
    ensures View(DeleteObject(s, name).state) == View(s) - {name}
  {
    var t := DeleteObject(s, name).state;
    forall other | other in t.objects
      ensures ViewOf(t.objects[other], t.chunks) == ViewOf(s.objects[other], s.chunks)
    {
      forall id | id in t.objects[other].chunks
        ensures id !in s.objects[name].chunks
      {
        if id in s.objects[name].chunks {
          ListsAreDisjoint(s, name, other, id);
        }
      }
      SameRecordsSameView(s.objects[other], s.chunks, t.chunks);
    }
  }

  /** A recorded replica shows in exactly the record of that chunk, as its last node. */
  lemma {:induction false} AddReplicaExtendsRecord(s: MetaState, id: u64, node: u64)
    requires Referential(s)
    ensures AddChunkReplica(s, id, node).saves <==>
            node in s.nodes && id in s.chunks && node !in s.chunks[id].storageNodes && |s.chunks[id].storageNodes| < MAX_REPLICAS
    ensures AddChunkReplica(s, id, node).saves ==>
              var t := AddChunkReplica(s, id, node).state;
              && t.chunks[id] == s.chunks[id].(storageNodes := s.chunks[id].storageNodes + [node])
              && forall name, i | name in s.objects && 0 <= i < |s.objects[name].chunks| ::
                   View(t)[name].records[i] ==
                   if s.objects[name].chunks[i] == id then Some(t.chunks[id]) else View(s)[name].records[i]
  {
  }
}
