/**
 * The calls that gateway and replicator make over the network: to the metadata node, and to the
 * storage nodes by address. Every call may fail; a call that fails has had no effect.
 */
module Calls {
  import opened Base
  import opened Metadata
  import opened MetadataInvariants
  import opened Cluster

  /** A metadata call was lost, or it was executed and its result came back. */
  ghost predicate Served<T>(due: Outcome<T>, r: Result<T>, sure: bool, before: ClusterState, after: ClusterState) {
    (!sure && r == Err(Io) && after == before) || (r == due.result && after == before.(meta := due.state))
  }

  /** As long as not all ids are taken, drawing until an id is free comes to an end. */
  lemma {:induction false} SomeIdIsFree(taken: set<u64>)
    requires |taken| <= U64_MAX
    ensures exists id: u64 :: id !in taken
  {
    if forall id: u64 :: id in taken {
      AllBelowTaken(taken, U64_MAX + 1);
    }
  }

  lemma {:induction false} AllBelowTaken(taken: set<u64>, n: nat)
    requires n <= U64_MAX + 1 && forall id: u64 | id < n :: id in taken
    ensures |taken| >= n
  {
    if n > 0 {
      AllBelowTaken(taken - {n - 1}, n - 1);
    }
  }

  class Remote {
    /** The remote side as a whole. */
    var state: ClusterState

    /** No metadata call is lost. */
    const metadataUp: bool

    /** The storage nodes at these addresses answer every call, and have room. */
    const up: set<Address>

    constructor (state: ClusterState, metadataUp: bool, up: set<Address>)
      ensures this.state == state && this.metadataUp == metadataUp && this.up == up
    {
      this.state, this.metadataUp, this.up := state, metadataUp, up;
    }

    method Lost() returns (lost: bool)
      ensures metadataUp ==> !lost
    {
      lost := *;
      lost := lost && !metadataUp;
    }

    method PutObject(checksum: u32, name: string) returns (r: Result<()>)
      modifies this
      ensures Served(Metadata.PutObject(old(state).meta, checksum, name), r, metadataUp, old(state), state)
    {
      var lost := Lost();
      if lost {
        return Err(Io);
      }
      var due := Metadata.PutObject(state.meta, checksum, name);
      state := state.(meta := due.state);
      return due.result;
    }

    method DeleteObject(name: string) returns (r: Result<()>)
      modifies this
      ensures Served(Metadata.DeleteObject(old(state).meta, name), r, metadataUp, old(state), state)
    {
      var lost := Lost();
      if lost {
        return Err(Io);
      }
      var due := Metadata.DeleteObject(state.meta, name);
      state := state.(meta := due.state);
      return due.result;
    }

    method AllocateChunk(name: string) returns (r: Result<(u64, u64, Address)>)
      modifies this
      ensures r.Err? ==> state == old(state)
      ensures r.Ok? ==> var (id, node, address) := r.value;
                ValidDraw(old(state).meta, Draw(id, Some(node))) && address == old(state).meta.nodes[node] &&
                state == old(state).(meta := Metadata.AllocateChunk(old(state).meta, name, Draw(id, Some(node))).state)
      ensures metadataUp && old(state).meta.nodes != map[] && |old(state).meta.chunks| <= U64_MAX ==> r.Ok?
    {
      var lost := Lost();
      if lost || |state.meta.chunks| > U64_MAX {
        return Err(Io);
      }
      if state.meta.nodes == map[] {
        return Err(HostUnreachable);
      }
      SomeIdIsFree(state.meta.chunks.Keys);
      var id: u64 :| id !in state.meta.chunks;
      var keys := state.meta.nodes.Keys;
      assert keys == {} ==> state.meta.nodes == map[];
      var node :| node in keys;
      var due := Metadata.AllocateChunk(state.meta, name, Draw(id, Some(node)));
      state := state.(meta := due.state);
      return due.result;
    }

    method ConfirmChunk(id: u64, name: string, checksum: u32, node: u64) returns (r: Result<()>)
      modifies this
      ensures Served(Metadata.ConfirmChunk(old(state).meta, id, name, checksum, node), r, metadataUp, old(state), state)
    {
      var lost := Lost();
      if lost {
        return Err(Io);
      }
      var due := Metadata.ConfirmChunk(state.meta, id, name, checksum, node);
      state := state.(meta := due.state);
      return due.result;
    }

    method UpdateObjectChecksum(name: string, checksum: u32, totalSize: u64) returns (r: Result<()>)
      modifies this
      ensures Served(Metadata.UpdateObjectChecksum(old(state).meta, name, checksum, totalSize), r, metadataUp, old(state), state)
    {
      var lost := Lost();
      if lost {
        return Err(Io);
      }
      var due := Metadata.UpdateObjectChecksum(state.meta, name, checksum, totalSize);
      state := state.(meta := due.state);
      return due.result;
    }

    method DeleteChunkRecord(id: u64) returns (r: Result<()>)
      modifies this
      ensures Served(Metadata.DeleteChunk(old(state).meta, id), r, metadataUp, old(state), state)
    {
      var lost := Lost();
      if lost {
        return Err(Io);
      }
      var due := Metadata.DeleteChunk(state.meta, id);
      state := state.(meta := due.state);
      return due.result;
    }

    /** Looks an object up; it fails when a chunk record or the registration of a replica is missing. */
    method GetObject(name: string) returns (r: Result<seq<ChunkRef>>)
      ensures r.Ok? ==> name in state.meta.objects && Resolvable(state.meta, state.meta.objects[name].chunks)
      ensures r.Ok? ==> r.value == Refs(state.meta, state.meta.objects[name].chunks)
      ensures metadataUp && name in state.meta.objects && Resolvable(state.meta, state.meta.objects[name].chunks) ==> r.Ok?
    {
      var lost := Lost();
      if lost {
        return Err(Io);
      }
      if name !in state.meta.objects {
        return Err(NotFound);
      }
      if !Resolvable(state.meta, state.meta.objects[name].chunks) {
        return Err(Io);
      }
      return Ok(Refs(state.meta, state.meta.objects[name].chunks));
    }

    method GetStorageNode(node: u64) returns (r: Result<Address>)
      ensures r.Ok? ==> node in state.meta.nodes && r.value == state.meta.nodes[node]
      ensures metadataUp && node in state.meta.nodes ==> r.Ok?
    {
      var lost := Lost();
      if lost || node !in state.meta.nodes {
        return Err(NotFound);
      }
      return Ok(state.meta.nodes[node]);
    }

    method ListStorageNodes() returns (r: Result<map<u64, Address>>)
      ensures r.Ok? ==> r.value == state.meta.nodes
      ensures metadataUp ==> r.Ok?
    {
      var lost := Lost();
      if lost {
        return Err(Io);
      }
      return Ok(state.meta.nodes);
    }

    method AddChunkReplica(id: u64, node: u64) returns (r: Result<()>)
      modifies this
      ensures Served(Metadata.AddChunkReplica(old(state).meta, id, node), r, metadataUp, old(state), state)
    {
      var lost := Lost();
      if lost {
        return Err(Io);
      }
      var due := Metadata.AddChunkReplica(state.meta, id, node);
      state := state.(meta := due.state);
      return due.result;
    }

    method Connect(address: Address) returns (ok: bool)
      ensures address in up ==> ok
    {
      ok := *;
      ok := ok || address in up;
    }

    method WriteChunk(address: Address, id: u64, data: seq<byte>) returns (r: Result<()>)
      modifies this
      ensures r.Err? ==> state == old(state)
      ensures r.Ok? ==> old(state).CanStore(address, id) && state == old(state).Store(address, id, data)
      ensures address in up && old(state).CanStore(address, id) ==> r.Ok?
    {
      var ok := Connect(address);
      if !ok || !state.CanStore(address, id) {
        return Err(Io);
      }
      state := state.Store(address, id, data);
      return Ok(());
    }

    method ReadChunk(address: Address, id: u64) returns (r: Result<seq<byte>>)
      ensures r.Ok? ==> state.Copy(address, id) == Some(r.value)
      ensures address in up && state.Copy(address, id).Some? ==> r.Ok?
    {
      var ok := Connect(address);
      if !ok || state.Copy(address, id).None? {
        return Err(NotFound);
      }
      return Ok(state.Copy(address, id).value);
    }

    method EraseChunk(address: Address, id: u64) returns (r: Result<()>)
      modifies this
      ensures r.Err? ==> state == old(state)
      ensures r.Ok? ==> address in old(state).disks && state == old(state).Erase(address, id)
      ensures address in up && address in old(state).disks ==> r.Ok?
    {
      var ok := Connect(address);
      if !ok || address !in state.disks {
        return Err(Io);
      }
      state := state.Erase(address, id);
      return Ok(());
    }

    /** Whether the node reports free slots. */
    method HasSpace(address: Address) returns (ok: bool)
      ensures address in up ==> ok
    {
      ok := Connect(address);
    }
  }
}
