/**
 * The running system as gateway and replicator see it: one metadata node and, behind each
 * address, a storage node that keeps chunks under their ids.
 */
module Cluster {
  import opened Base
  import opened Metadata
  import opened MetadataInvariants
  import Crc32

  type Disk = map<u64, seq<byte>>

  datatype ClusterState = ClusterState(meta: MetaState, disks: map<Address, Disk>)
  {
    /** The bytes of a chunk at an address, if it is there. */
    function Copy(address: Address, id: u64): Option<seq<byte>> {
      if address in disks && id in disks[address] then Some(disks[address][id]) else None
    }

    /** Storing fails on an address where nobody listens and on an id that is taken. */
    predicate CanStore(address: Address, id: u64) {
      address in disks && id !in disks[address]
    }

    function Store(address: Address, id: u64, data: seq<byte>): ClusterState
      requires CanStore(address, id)
    {
      var disk: Disk := disks[address][id := data];
      this.(disks := disks[address := disk])
    }

    /** Erasing a chunk that is not there succeeds and changes nothing. */
    function Erase(address: Address, id: u64): ClusterState
      requires address in disks
    {
      var disk: Disk := disks[address] - {id};
      this.(disks := disks[address := disk])
    }
  }

  /** What a reader is told about a chunk: id, checksum and the addresses of its replicas in order. */
  datatype ChunkRef = ChunkRef(id: u64, checksum: u32, addresses: seq<Address>)

  function AddressesOf(nodes: map<u64, Address>, ids: seq<u64>): seq<Address>
    requires forall n | n in ids :: n in nodes
  {
    seq(|ids|, i requires 0 <= i < |ids| => assert ids[i] in ids; nodes[ids[i]])
  }

  /** All listed chunks have records, and all their replicas are registered. */
  predicate Resolvable(m: MetaState, ids: seq<u64>) {
    forall id | id in ids :: id in m.chunks && forall n | n in m.chunks[id].storageNodes :: n in m.nodes
  }

  /** The object can be looked up. */
  predicate Readable(m: MetaState, name: string) {
    name in m.objects && Resolvable(m, m.objects[name].chunks)
  }

  /** A node at the address is recorded for the chunk. */
  ghost predicate RecordedAt(m: MetaState, id: u64, address: Address) {
    id in m.chunks && exists n | n in m.chunks[id].storageNodes :: n in m.nodes && m.nodes[n] == address
  }

  function Refs(m: MetaState, ids: seq<u64>): seq<ChunkRef>
    requires Resolvable(m, ids)
  {
    seq(|ids|, i requires 0 <= i < |ids| =>
      assert ids[i] in ids;
      ChunkRef(ids[i], m.chunks[ids[i]].checksum, AddressesOf(m.nodes, m.chunks[ids[i]].storageNodes)))
  }

  /** What a look-up of the object returns. */
  function RefsOf(m: MetaState, name: string): seq<ChunkRef>
    requires Readable(m, name)
  {
    Refs(m, m.objects[name].chunks)
  }

  /** A look-up keeps both orders: of the chunks, and of each chunk's replicas. */
  lemma {:induction false} RefsInOrder(m: MetaState, name: string, i: nat, k: nat)
    requires Readable(m, name) && i < |m.objects[name].chunks|
    ensures var (refs, id) := (RefsOf(m, name), m.objects[name].chunks[i]);
            && |refs| == |m.objects[name].chunks| && id in m.chunks
            && refs[i].id == id && refs[i].checksum == m.chunks[id].checksum && |refs[i].addresses| == |m.chunks[id].storageNodes|
            && (k < |m.chunks[id].storageNodes| ==>
                  m.chunks[id].storageNodes[k] in m.nodes && refs[i].addresses[k] == m.nodes[m.chunks[id].storageNodes[k]])
  {
    assert m.objects[name].chunks[i] in m.objects[name].chunks;
  }

  /** All (chunk, address) pairs, chunk by chunk. */
  function Targets(refs: seq<ChunkRef>): seq<(u64, Address)> {
    if refs == [] then []
    else
      var ref := refs[|refs| - 1];
      Targets(refs[..|refs| - 1]) + seq(|ref.addresses|, i requires 0 <= i < |ref.addresses| => (ref.id, ref.addresses[i]))
  }

  /** The targets are the recorded replicas of the object's chunks. */
  ghost predicate AllReplicas(m: MetaState, name: string, targets: seq<(u64, Address)>)
    requires name in m.objects
  {
    forall t: (u64, Address) :: t in targets <==> t.0 in m.objects[name].chunks && RecordedAt(m, t.0, t.1)
  }

  /** The targets are exactly the listed chunks paired with the addresses of their recorded replicas. */
  lemma {:induction false} TargetsExactly(m: MetaState, name: string)
    requires Readable(m, name)
    ensures AllReplicas(m, name, Targets(RefsOf(m, name)))
  {
    var ids, refs := m.objects[name].chunks, RefsOf(m, name);
    TargetsOfRefs(refs);
    forall t | t in Targets(refs)
      ensures t.0 in ids && RecordedAt(m, t.0, t.1)
    {
      var i, k :| 0 <= i < |refs| && 0 <= k < |refs[i].addresses| && t == (refs[i].id, refs[i].addresses[k]);
      assert ids[i] in ids;
      assert m.chunks[ids[i]].storageNodes[k] in m.chunks[ids[i]].storageNodes;
    }
    forall t: (u64, Address) | t.0 in ids && RecordedAt(m, t.0, t.1)
      ensures t in Targets(refs)
    {
      var i :| 0 <= i < |ids| && ids[i] == t.0;
      var n :| n in m.chunks[t.0].storageNodes && n in m.nodes && m.nodes[n] == t.1;
      var k :| 0 <= k < |m.chunks[t.0].storageNodes| && m.chunks[t.0].storageNodes[k] == n;
      assert refs[i].addresses[k] == t.1;
    }
  }

  lemma {:induction false} TargetsOfRefs(refs: seq<ChunkRef>)
    ensures forall t | t in Targets(refs) ::
              exists i, k :: 0 <= i < |refs| && 0 <= k < |refs[i].addresses| && t == (refs[i].id, refs[i].addresses[k])
    ensures forall i, k | 0 <= i < |refs| && 0 <= k < |refs[i].addresses| :: (refs[i].id, refs[i].addresses[k]) in Targets(refs)
  {
    if refs != [] {
      var front, ref := refs[..|refs| - 1], refs[|refs| - 1];
      TargetsOfRefs(front);
      var last := seq(|ref.addresses|, i requires 0 <= i < |ref.addresses| => (ref.id, ref.addresses[i]));
      forall i, k | 0 <= i < |refs| && 0 <= k < |refs[i].addresses|
        ensures (refs[i].id, refs[i].addresses[k]) in Targets(front) + last
      {
        if i < |front| {
          assert (front[i].id, front[i].addresses[k]) in Targets(front);
        } else {
          assert last[k] in last;
        }
      }
    }
  }

  // ---------------------------------------------------------------------------------------
  // Objects that can be read back
  // ---------------------------------------------------------------------------------------

  /** Every replica listed for the chunk is registered and holds exactly these bytes, and the checksum is theirs. */
  ghost predicate ChunkHolds(c: ClusterState, id: u64, data: seq<byte>) {
    && id in c.meta.chunks
    && c.meta.chunks[id].status == Confirmed
    && c.meta.chunks[id].checksum == Crc32.Checksum(data)
    && c.meta.chunks[id].storageNodes != []
    && forall n | n in c.meta.chunks[id].storageNodes :: n in c.meta.nodes && c.Copy(c.meta.nodes[n], id) == Some(data)
  }

  /** The object's chunks are these pieces, in this order. */
  ghost predicate Holds(c: ClusterState, name: string, pieces: seq<seq<byte>>) {
    && name in c.meta.objects
    && |c.meta.objects[name].chunks| == |pieces|
    && forall i | 0 <= i < |pieces| :: ChunkHolds(c, c.meta.objects[name].chunks[i], pieces[i])
  }

  /** Nothing that concerns an object other than `name` is different: not its record, its chunks' records or their copies. */
  ghost predicate LeavesOthers(before: ClusterState, after: ClusterState, name: string) {
    && after.meta.nodes == before.meta.nodes
    && (forall other | other in before.meta.objects && other != name ::
          other in after.meta.objects && after.meta.objects[other] == before.meta.objects[other])
    && (forall other, id | other in before.meta.objects && other != name && id in before.meta.objects[other].chunks ::
          SameChunk(before, after, id))
  }

  ghost predicate SameChunk(before: ClusterState, after: ClusterState, id: u64) {
    && RecordOf(after.meta.chunks, id) == RecordOf(before.meta.chunks, id)
    && forall a :: after.Copy(a, id) == before.Copy(a, id)
  }

  lemma {:induction false} LeavesOthersTwice(a: ClusterState, b: ClusterState, c: ClusterState, name: string)
    requires LeavesOthers(a, b, name) && LeavesOthers(b, c, name)
    ensures LeavesOthers(a, c, name)
  {
    forall other, id | other in a.meta.objects && other != name && id in a.meta.objects[other].chunks
      ensures SameChunk(a, c, id)
    {
      assert SameChunk(a, b, id);
      assert id in b.meta.objects[other].chunks;
      assert SameChunk(b, c, id);
    }
  }

  /** So every other object that could be read back still can. */
  lemma {:induction false} OthersStillHold(before: ClusterState, after: ClusterState, name: string, other: string, pieces: seq<seq<byte>>)
    requires LeavesOthers(before, after, name) && other != name && Holds(before, other, pieces)
    ensures Holds(after, other, pieces)
  {
    var ids := before.meta.objects[other].chunks;
    forall i | 0 <= i < |pieces|
      ensures ChunkHolds(after, ids[i], pieces[i])
    {
      assert ids[i] in ids;
      SameChunkHolds(before, after, ids[i], pieces[i]);
    }
  }

  lemma {:induction false} SameChunkHolds(before: ClusterState, after: ClusterState, id: u64, data: seq<byte>)
    requires ChunkHolds(before, id, data) && SameChunk(before, after, id) && after.meta.nodes == before.meta.nodes
    ensures ChunkHolds(after, id, data)
  {
    assert RecordOf(after.meta.chunks, id) == Some(before.meta.chunks[id]);
    forall n | n in before.meta.chunks[id].storageNodes
      ensures after.Copy(before.meta.nodes[n], id) == Some(data)
    {
      assert before.Copy(before.meta.nodes[n], id) == Some(data);
    }
  }
}
