/**
 * A metadata node's handlers: each works on the store under its lock and then brings the
 * chunk index up to date, so that chunk-scoped requests find the owner of the object.
 */
module ClusterService {
  import opened Base
  import opened Metadata
  import opened MetadataInvariants
  import opened MetadataStore
  import opened HashRing

  // ---------------------------------------------------------------------------------------
  // The chunk index
  // ---------------------------------------------------------------------------------------

  function Inserted(index: map<u64, string>, entries: seq<(u64, string)>): map<u64, string> {
    if entries == [] then index
    else Inserted(index, entries[..|entries| - 1])[entries[|entries| - 1].0 := entries[|entries| - 1].1]
  }

  class ChunkIndex {
    var index: map<u64, string>

    constructor ()
      ensures index == map[]
    {
      index := map[];
    }

    method Insert(id: u64, name: string)
      modifies this
      ensures index == old(index)[id := name]
    {
      index := index[id := name];
    }

    method Remove(id: u64)
      modifies this
      ensures index == old(index) - {id}
    {
      index := index - {id};
    }

    method RemoveEach(ids: seq<u64>)
      modifies this
      ensures index == old(index) - set c | c in ids
    {
      var i := 0;
      while i < |ids|
        invariant 0 <= i <= |ids|
        invariant index == old(index) - set c | c in ids[..i]
      {
        assert ids[..i + 1] == ids[..i] + [ids[i]];
        Remove(ids[i]);
        i := i + 1;
      }
      assert ids[..i] == ids;
    }

    method BulkInsert(entries: seq<(u64, string)>)
      modifies this
      ensures index == Inserted(old(index), entries)
    {
      var i := 0;
      while i < |entries|
        invariant 0 <= i <= |entries|
        invariant index == Inserted(old(index), entries[..i])
      {
        assert entries[..i + 1][..i] == entries[..i];
        index := index[entries[i].0 := entries[i].1];
        i := i + 1;
      }
      assert entries[..i] == entries;
    }

    /** Fills the index from a chunk map, as a node does when it starts. */
    method PopulateFromChunks(chunks: map<u64, MetaChunk>)
      modifies this
      ensures forall id :: id in index <==> id in old(index) || id in chunks
      ensures forall id | id in index :: index[id] == if id in chunks then chunks[id].objectName else old(index)[id]
      ensures forall s: MetaState | s.chunks == chunks && Referential(s) :: Agrees(s, index)
    {
      var rest := chunks.Keys;
      while rest != {}
        invariant rest <= chunks.Keys
        invariant forall id :: id in index <==> id in old(index) || id in chunks.Keys - rest
        invariant forall id | id in index ::
                    index[id] == if id in chunks.Keys - rest then chunks[id].objectName else old(index)[id]
      {
        var id :| id in rest;
        Insert(id, chunks[id].objectName);
        rest := rest - {id};
      }
      forall s: MetaState | s.chunks == chunks && Referential(s)
        ensures Agrees(s, index)
      {
        NamedAgrees(s, index);
      }
    }
  }

  // ---------------------------------------------------------------------------------------
  // Agreement of store and index
  // ---------------------------------------------------------------------------------------

  /** Every chunk listed by a local object is indexed under that object's name. */
  ghost predicate Agrees(s: MetaState, index: map<u64, string>) {
    forall name, id | name in s.objects && id in s.objects[name].chunks :: id in index && index[id] == name
  }

  /** A chunk-scoped request goes to the same node as a request for the object that lists the chunk. */
  lemma {:induction false} SameRoute(s: MetaState, index: map<u64, string>, ring: Ring, name: string, id: u64)
    requires Agrees(s, index) && name in s.objects && id in s.objects[name].chunks
    ensures id in index && GetOwner(ring, index[id]) == GetOwner(ring, name)
  {
  }

  /** An index that knows every chunk by the name its record carries. */
  lemma {:induction false} NamedAgrees(s: MetaState, index: map<u64, string>)
    requires Referential(s) && forall id | id in s.chunks :: id in index && index[id] == s.chunks[id].objectName
    ensures Agrees(s, index)
  {
    forall name, id | name in s.objects && id in s.objects[name].chunks
      ensures id in s.chunks && s.chunks[id].objectName == name
    {
    }
  }

  /** Listing one more chunk needs exactly that one index entry. */
  lemma {:induction false} AgreesAfterListing(s: MetaState, t: MetaState, index: map<u64, string>, name: string, id: u64)
    requires Agrees(s, index) && name in s.objects && t.objects.Keys == s.objects.Keys
    requires forall other | other in s.objects && other != name :: t.objects[other].chunks == s.objects[other].chunks
    requires t.objects[name].chunks == s.objects[name].chunks + [id]
    requires forall other | other in s.objects :: id !in s.objects[other].chunks
    ensures Agrees(t, index[id := name])
    ensures Agrees(t, index) <==> id in index && index[id] == name
  {
    assert id in t.objects[name].chunks by {
      assert t.objects[name].chunks[|s.objects[name].chunks|] == id;
    }
    forall other, c | other in t.objects && c in t.objects[other].chunks
      ensures c == id ==> other == name
      ensures c != id ==> c in index && index[c] == other
    {
    }
  }

  /** No object of `t` is new, none lists more than before, and none lists any of the given ids. */
  ghost predicate ListsShrink(s: MetaState, t: MetaState, ids: set<u64>) {
    forall name | name in t.objects ::
      && name in s.objects
      && forall id | id in t.objects[name].chunks :: id in s.objects[name].chunks && id !in ids
  }

  /** Unlisting chunks, of one object or altogether, lets their index entries go. */
  lemma {:induction false} AgreesAfterUnlisting(s: MetaState, t: MetaState, index: map<u64, string>, ids: set<u64>)
    requires Agrees(s, index) && ListsShrink(s, t, ids)
    ensures Agrees(t, index - ids) && Agrees(t, index)
  {
  }

  /** Entries may be dropped, at any later time, exactly as long as no object lists their chunks. */
  lemma {:induction false} CleanupAgreesIff(s: MetaState, index: map<u64, string>, ids: set<u64>)
    requires Agrees(s, index)
    ensures Agrees(s, index - ids) <==> forall name, id | name in s.objects && id in s.objects[name].chunks :: id !in ids
  {
    if Agrees(s, index - ids) {
      forall name, id | name in s.objects && id in s.objects[name].chunks
        ensures id !in ids
      {
        assert id in index - ids;
      }
    }
  }

  class MetadataClusterService {
    const store: MetadataStore
    const chunkIndex: ChunkIndex

    constructor (store: MetadataStore, chunkIndex: ChunkIndex)
      ensures this.store == store && this.chunkIndex == chunkIndex
    {
      this.store, this.chunkIndex := store, chunkIndex;
    }

    ghost predicate Valid()
      reads this, store, store.file, chunkIndex
    {
      store.Valid() && Referential(store.State())
    }

    ghost predicate Agreed()
      reads this, store, chunkIndex
    {
      Agrees(store.State(), chunkIndex.index)
    }

    /** The store has made of the request what the operation is due to make, in memory, on file and in its report. */
    twostate predicate Serves<T>(due: Outcome<T>, new r: Result<T>)
      reads this, store, store.file
    {
      store.State() == due.state && Reports(due, r, old(store.OnFile()), store.OnFile(), store.file.reliable)
    }

    method ForwardPutObject(checksum: u32, name: string) returns (r: Result<()>)
      requires Valid()
      modifies store, store.file
      ensures Valid() && Serves(PutObject(old(store.State()), checksum, name), r)
      ensures old(Agreed()) ==> Agreed()
    {
      ExecKeepsReferential(store.State(), PutObjectCmd(checksum, name));
      r := store.PutObject(checksum, name);
    }

    /** Drops the object, and then the index entries of the chunks it listed. */
    method ForwardDeleteObject(name: string) returns (r: Result<()>)
      requires Valid()
      modifies store, store.file, chunkIndex
      ensures Valid() && Serves(DeleteObject(old(store.State()), name), r)
      ensures old(Agreed()) ==> Agreed()
      ensures r.Ok? ==> name in old(store.objects) &&
                        chunkIndex.index == old(chunkIndex.index) - set c | c in old(store.objects)[name].chunks
      ensures r.Err? ==> chunkIndex.index == old(chunkIndex.index)
    {
      ghost var before := store.State();
      var ids := if name in store.objects then store.objects[name].chunks else [];
      ExecKeepsReferential(before, DeleteObjectCmd(name));
      r := store.DeleteObject(name);
      ghost var gone := set c | c in ids;
      if name in before.objects {
        OthersKeepTheirLists(before, name);
      }
      if old(Agreed()) && name in before.objects {
        AgreesAfterUnlisting(before, store.State(), chunkIndex.index, gone);
      }
      if r.Err? {
        return;
      }
      chunkIndex.RemoveEach(ids);
    }

    method ForwardPutChunk(name: string, checksum: u32, draw: Draw) returns (r: Result<(u64, Address)>)
      requires Valid() && ValidDraw(store.State(), draw)
      modifies store, store.file, chunkIndex
      ensures Valid() && var due := PutChunk(old(store.State()), name, checksum, draw);
                && Serves(due, r)
                && (old(Agreed()) && (r.Ok? || !due.saves) ==> Agreed())
                && (old(Agreed()) && r.Err? && due.saves ==>
                      (Agreed() <==> draw.id in chunkIndex.index && chunkIndex.index[draw.id] == name))
      ensures chunkIndex.index == if r.Ok? then old(chunkIndex.index)[r.value.0 := name] else old(chunkIndex.index)
    {
      ghost var before := store.State();
      ExecKeepsReferential(before, PutChunkCmd(name, checksum, draw));
      r := store.PutChunk(name, checksum, draw);
      if PutChunk(before, name, checksum, draw).saves {
        forall other | other in before.objects
          ensures draw.id !in before.objects[other].chunks
        {
          Unlisted(before, draw.id, other);
        }
        if old(Agreed()) {
          AgreesAfterListing(before, store.State(), chunkIndex.index, name, draw.id);
        }
      }
      if r.Ok? {
        chunkIndex.Insert(r.value.0, name);
      }
    }

    method ForwardAllocateChunk(name: string, draw: Draw) returns (r: Result<(u64, u64, Address)>)
      requires Valid() && ValidDraw(store.State(), draw)
      modifies store, store.file
      ensures Valid() && Serves(AllocateChunk(old(store.State()), name, draw), r)
      ensures old(Agreed()) ==> Agreed()
    {
      ExecKeepsReferential(store.State(), AllocateChunkCmd(name, draw));
      r := store.AllocateChunk(name, draw);
    }

    /**
     * Confirms a chunk and indexes it. A save that fails leaves the chunk listed in memory but
     * not indexed, so agreement is then lost unless the entry was there already.
     */
    method ForwardConfirmChunk(id: u64, name: string, checksum: u32, node: u64) returns (r: Result<()>)
      requires Valid()
      modifies store, store.file, chunkIndex
      ensures Valid() && var due := ConfirmChunk(old(store.State()), id, name, checksum, node);
                && Serves(due, r)
                && (old(Agreed()) && (r.Ok? || !due.saves) ==> Agreed())
                && (old(Agreed()) && r.Err? && due.saves ==>
                      (Agreed() <==> id in chunkIndex.index && chunkIndex.index[id] == name))
      ensures chunkIndex.index == if r.Ok? then old(chunkIndex.index)[id := name] else old(chunkIndex.index)
    {
      ghost var before := store.State();
      ExecKeepsReferential(before, ConfirmChunkCmd(id, name, checksum, node));
      r := store.ConfirmChunk(id, name, checksum, node);
      if ConfirmChunk(before, id, name, checksum, node).saves {
        forall other | other in before.objects
          ensures id !in before.objects[other].chunks
        {
          Unlisted(before, id, other);
        }
        if old(Agreed()) {
          AgreesAfterListing(before, store.State(), chunkIndex.index, name, id);
        }
      }
      if r.Ok? {
        chunkIndex.Insert(id, name);
      }
    }

    method ForwardDeleteChunk(id: u64) returns (r: Result<()>)
      requires Valid()
      modifies store, store.file, chunkIndex
      ensures Valid() && Serves(DeleteChunk(old(store.State()), id), r)
      ensures old(Agreed()) ==> Agreed()
      ensures chunkIndex.index == if r.Ok? then old(chunkIndex.index) - {id} else old(chunkIndex.index)
    {
      ghost var before := store.State();
      ExecKeepsReferential(before, DeleteChunkCmd(id));
      r := store.DeleteChunk(id);
      if id in before.chunks {
        NobodyListsDeleted(before, id);
        if old(Agreed()) {
          AgreesAfterUnlisting(before, store.State(), chunkIndex.index, {id});
        }
      }
      if r.Ok? {
        chunkIndex.Remove(id);
      }
    }

    method ForwardAddChunkReplica(id: u64, node: u64) returns (r: Result<()>)
      requires Valid()
      modifies store, store.file
      ensures Valid() && Serves(AddChunkReplica(old(store.State()), id, node), r)
      ensures old(Agreed()) ==> Agreed()
    {
      ExecKeepsReferential(store.State(), AddReplicaCmd(id, node));
      r := store.AddChunkReplica(id, node);
    }
  }

  /** Why delete-object may clean the index by chunk id: no other object lists those ids. */
  lemma {:induction false} OthersKeepTheirLists(s: MetaState, name: string)
    requires Referential(s) && name in s.objects
    ensures ListsShrink(s, DeleteObject(s, name).state, set c | c in s.objects[name].chunks)
  {
    forall other, id | other in s.objects && other != name && id in s.objects[other].chunks
      ensures id !in s.objects[name].chunks
    {
      if id in s.objects[name].chunks {
        ListsAreDisjoint(s, name, other, id);
      }
    }
  }

  lemma {:induction false} NobodyListsDeleted(s: MetaState, id: u64)
    requires Referential(s) && id in s.chunks
    ensures ListsShrink(s, DeleteChunk(s, id).state, {id})
  {
    forall name | name in s.objects
      ensures forall c :: c in Without(s.objects[name].chunks, id) <==> c in s.objects[name].chunks && c != id
      ensures name != s.chunks[id].objectName ==> id !in s.objects[name].chunks
    {
      WithoutElements(s.objects[name].chunks, id);
      if name != s.chunks[id].objectName {
        Unlisted(s, id, name);
      }
    }
  }
}
