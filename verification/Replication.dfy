/**
 * The replication service: each cycle copies under-replicated chunks to further nodes, those with
 * the fewest replicas first. How far a state is from full replication is a number, the deficit.
 */
module Replication {
  import opened Base
  import opened Metadata
  import opened MetadataInvariants
  import opened Cluster
  import opened Calls
  import Crc32

  // ---------------------------------------------------------------------------------------
  // Listing
  // ---------------------------------------------------------------------------------------

  predicate UnderReplicated(m: MetaState, id: u64) {
    id in m.chunks && m.chunks[id].status == Confirmed && |m.chunks[id].storageNodes| < MAX_REPLICAS
  }

  /** The under-replicated chunks with their records, each once. */
  ghost predicate IsListing(m: MetaState, listing: seq<MetaChunk>) {
    && (forall i, j | 0 <= i < j < |listing| :: listing[i].id != listing[j].id)
    && (forall i | 0 <= i < |listing| :: UnderReplicated(m, listing[i].id) && listing[i] == m.chunks[listing[i].id])
    && (forall id | UnderReplicated(m, id) :: Lists(listing, id))
  }

  ghost predicate Lists(listing: seq<MetaChunk>, id: u64) {
    exists i | 0 <= i < |listing| :: listing[i].id == id
  }

  ghost predicate FewestFirst(listing: seq<MetaChunk>) {
    forall i, j | 0 <= i < j < |listing| :: |listing[i].storageNodes| <= |listing[j].storageNodes|
  }

  /** Puts a chunk behind all those that have no more replicas than it. */
  function Insert(listing: seq<MetaChunk>, c: MetaChunk): seq<MetaChunk> {
    if listing == [] || |listing[|listing| - 1].storageNodes| <= |c.storageNodes| then listing + [c]
    else Insert(listing[..|listing| - 1], c) + [listing[|listing| - 1]]
  }

  lemma {:induction false} InsertAdds(listing: seq<MetaChunk>, c: MetaChunk)
    ensures multiset(Insert(listing, c)) == multiset(listing) + multiset{c}
  {
    if listing != [] {
      InsertAdds(listing[..|listing| - 1], c);
      assert listing == listing[..|listing| - 1] + [listing[|listing| - 1]];
    }
  }

  lemma {:induction false} InsertSorts(listing: seq<MetaChunk>, c: MetaChunk)
    requires FewestFirst(listing)
    ensures FewestFirst(Insert(listing, c))
  {
    if listing != [] {
      var front, last := listing[..|listing| - 1], listing[|listing| - 1];
      if |last.storageNodes| > |c.storageNodes| {
        InsertSorts(front, c);
        InsertAdds(front, c);
        var inner := Insert(front, c);
        forall i | 0 <= i < |inner|
          ensures |inner[i].storageNodes| <= |last.storageNodes|
        {
          assert inner[i] in multiset(inner);
        }
      }
    }
  }

  method ListUnderReplicated(m: MetaState) returns (listing: seq<MetaChunk>)
    requires forall id | id in m.chunks :: m.chunks[id].id == id
    ensures IsListing(m, listing) && FewestFirst(listing)
  {
    listing := [];
    var rest := m.chunks.Keys;
    while rest != {}
      invariant rest <= m.chunks.Keys
      invariant FewestFirst(listing) && Exactly(m, m.chunks.Keys - rest, listing)
    {
      var id :| id in rest;
      if UnderReplicated(m, id) {
        InsertOne(m, m.chunks.Keys - rest, listing, id);
        listing := Insert(listing, m.chunks[id]);
      }
      rest := rest - {id};
    }
  }

  /** The under-replicated chunks among the given ids, each once. */
  ghost predicate Exactly(m: MetaState, ids: set<u64>, listing: seq<MetaChunk>) {
    && (forall i, j | 0 <= i < j < |listing| :: listing[i].id != listing[j].id)
    && (forall i | 0 <= i < |listing| ::
          listing[i].id in ids && UnderReplicated(m, listing[i].id) && listing[i] == m.chunks[listing[i].id])
    && (forall id | id in ids && UnderReplicated(m, id) :: Lists(listing, id))
  }

  lemma {:induction false} InsertOne(m: MetaState, ids: set<u64>, listing: seq<MetaChunk>, id: u64)
    requires Exactly(m, ids, listing) && FewestFirst(listing) && id !in ids
    requires UnderReplicated(m, id) && m.chunks[id].id == id
    ensures FewestFirst(Insert(listing, m.chunks[id])) && Exactly(m, ids + {id}, Insert(listing, m.chunks[id]))
  {
    var c := m.chunks[id];
    InsertSorts(listing, c);
    InsertAdds(listing, c);
    var longer := Insert(listing, c);
    SameElementsListAlike(m, ids, listing, longer, c);
  }

  lemma {:induction false} SameElementsListAlike(m: MetaState, ids: set<u64>, listing: seq<MetaChunk>, longer: seq<MetaChunk>, c: MetaChunk)
    requires Exactly(m, ids, listing) && c.id !in ids && UnderReplicated(m, c.id) && m.chunks[c.id] == c
    requires multiset(longer) == multiset(listing) + multiset{c}
    ensures Exactly(m, ids + {c.id}, longer)
  {
    forall i | 0 <= i < |longer|
      ensures longer[i] == c || longer[i] in listing
    {
      assert longer[i] in multiset(longer);
    }
    forall x | x in listing || x == c
      ensures x in longer
    {
      assert x in multiset(listing) + multiset{c};
      assert x in multiset(longer);
    }
    forall x
      ensures multiset(longer)[x] <= 1
    {
      assert multiset(longer)[x] == multiset(listing)[x] + multiset{c}[x];
      OnePosition(listing, x);
      if x == c {
        assert c !in listing;
      }
    }
    forall i, j | 0 <= i < j < |longer|
      ensures longer[i].id != longer[j].id
    {
      if longer[i] == longer[j] {
        TwoPositions(longer, i, j);
      }
    }
    forall id | id in ids + {c.id} && UnderReplicated(m, id)
      ensures Lists(longer, id)
    {
      if id != c.id {
        var i :| 0 <= i < |listing| && listing[i].id == id;
        assert listing[i] in longer;
      }
      assert m.chunks[id] in longer;
      var k :| 0 <= k < |longer| && longer[k] == m.chunks[id];
    }
  }

  lemma {:induction false} TwoPositions<T>(xs: seq<T>, i: nat, j: nat)
    requires i < j < |xs| && xs[i] == xs[j]
    ensures multiset(xs)[xs[i]] >= 2
  {
    assert xs == xs[..j] + [xs[j]] + xs[j + 1..];
    assert xs[..j][i] in multiset(xs[..j]);
  }

  lemma {:induction false} OnePosition<T>(xs: seq<T>, x: T)
    requires forall i, j | 0 <= i < j < |xs| :: xs[i] != xs[j]
    ensures multiset(xs)[x] <= 1
  {
    if xs != [] {
      OnePosition(xs[1..], x);
      assert xs == [xs[0]] + xs[1..];
      assert xs[0] !in xs[1..];
    }
  }

  // ---------------------------------------------------------------------------------------
  // How much is missing
  // ---------------------------------------------------------------------------------------

  /** As many replicas as there are nodes for, at most three. */
  function Goal(m: MetaState): nat {
    if |m.nodes| < MAX_REPLICAS then |m.nodes| else MAX_REPLICAS
  }

  function Missing(m: MetaState, id: u64): nat {
    if id in m.chunks && m.chunks[id].status == Confirmed && |m.chunks[id].storageNodes| < Goal(m)
    then Goal(m) - |m.chunks[id].storageNodes|
    else 0
  }

  ghost function Total(m: MetaState, ids: set<u64>): nat {
    if ids == {} then 0
    else
      var id :| id in ids;
      Missing(m, id) + Total(m, ids - {id})
  }

  /** The replicas still to be made, over all confirmed chunks. */
  ghost function Deficit(m: MetaState): nat {
    Total(m, m.chunks.Keys)
  }

  ghost function Lacking(m: MetaState): set<u64> {
    set id | id in m.chunks && Missing(m, id) > 0
  }

  lemma {:induction false} TotalPick(m: MetaState, ids: set<u64>, id: u64)
    requires id in ids
    ensures Total(m, ids) == Missing(m, id) + Total(m, ids - {id})
  {
    var first :| first in ids && Total(m, ids) == Missing(m, first) + Total(m, ids - {first});
    if first != id {
      TotalPick(m, ids - {first}, id);
      TotalPick(m, ids - {id}, first);
      assert ids - {first} - {id} == ids - {id} - {first};
    }
  }

  lemma {:induction false} TotalSame(m: MetaState, t: MetaState, ids: set<u64>)
    requires forall id | id in ids :: Missing(t, id) == Missing(m, id)
    ensures Total(t, ids) == Total(m, ids)
  {
    if ids != {} {
      var id :| id in ids;
      TotalPick(m, ids, id);
      TotalPick(t, ids, id);
      TotalSame(m, t, ids - {id});
    }
  }

  /** A change in one chunk shows in the deficit as it is. */
  lemma {:induction false} DeficitOfOneChange(m: MetaState, t: MetaState, id: u64)
    requires t.chunks.Keys == m.chunks.Keys && id in m.chunks
    requires forall other | other != id :: Missing(t, other) == Missing(m, other)
    ensures Deficit(t) - Missing(t, id) == Deficit(m) - Missing(m, id)
  {
    TotalPick(m, m.chunks.Keys, id);
    TotalPick(t, m.chunks.Keys, id);
    TotalSame(m, t, m.chunks.Keys - {id});
  }

  lemma {:induction false} NoDeficitMeansNoneLacking(m: MetaState, ids: set<u64>)
    ensures Total(m, ids) == 0 <==> forall id | id in ids :: Missing(m, id) == 0
  {
    if ids != {} {
      var id :| id in ids;
      TotalPick(m, ids, id);
      NoDeficitMeansNoneLacking(m, ids - {id});
    }
  }

  // ---------------------------------------------------------------------------------------
  // Where replication can make progress
  // ---------------------------------------------------------------------------------------

  /** Every recorded replica is registered and in place with the recorded checksum, and no other node has a copy. */
  ghost predicate Healthy(c: ClusterState) {
    && Referential(c.meta)
    && (forall id, n | id in c.meta.chunks && n in c.meta.chunks[id].storageNodes :: n in c.meta.nodes)
    && (forall a, b | a in c.meta.nodes && b in c.meta.nodes && c.meta.nodes[a] == c.meta.nodes[b] :: a == b)
    && (forall n | n in c.meta.nodes :: c.meta.nodes[n] in c.disks)
    && (forall id | id in c.meta.chunks && c.meta.chunks[id].status == Confirmed :: CopiesMatch(c, id))
  }

  ghost predicate CopiesMatch(c: ClusterState, id: u64)
    requires id in c.meta.chunks
  {
    forall n | n in c.meta.nodes ::
      var copy := c.Copy(c.meta.nodes[n], id);
      if n in c.meta.chunks[id].storageNodes then copy.Some? && Crc32.Checksum(copy.value) == c.meta.chunks[id].checksum
      else copy.None?
  }

  ghost predicate Faultless(c: ClusterState, metadataUp: bool, up: set<Address>) {
    metadataUp && forall n | n in c.meta.nodes :: c.meta.nodes[n] in up
  }

  predicate Eligible(nodes: map<u64, Address>, chunk: MetaChunk, n: u64) {
    n in nodes && n !in chunk.storageNodes
  }

  ghost function Elements(ids: seq<u64>): set<u64> {
    set x | x in ids
  }

  lemma {:induction false} DistinctSize(ids: seq<u64>)
    requires Distinct(ids)
    ensures |Elements(ids)| == |ids|
  {
    if ids == [] {
      assert Elements(ids) == {};
    } else {
      DistinctSize(ids[1..]);
      assert ids[0] !in ids[1..];
      assert Elements(ids) == {ids[0]} + Elements(ids[1..]);
    }
  }

  /** A chunk all of whose replicas are registered has an eligible node exactly if it has fewer replicas than there are nodes. */
  lemma {:induction false} EligibleIff(nodes: map<u64, Address>, chunk: MetaChunk)
    requires Distinct(chunk.storageNodes) && forall n | n in chunk.storageNodes :: n in nodes
    ensures (exists n :: Eligible(nodes, chunk, n)) <==> |chunk.storageNodes| < |nodes|
  {
    var held := Elements(chunk.storageNodes);
    DistinctSize(chunk.storageNodes);
    SubsetSize(held, nodes.Keys);
    assert |nodes.Keys| == |nodes|;
    if held != nodes.Keys {
      var n :| n in nodes.Keys && n !in held;
      assert Eligible(nodes, chunk, n);
    } else {
      forall n | n in nodes
        ensures !Eligible(nodes, chunk, n)
      {
        assert n in held;
      }
    }
  }

  lemma {:induction false} SubsetSize(a: set<u64>, b: set<u64>)
    requires a <= b
    ensures |a| <= |b| && (|a| == |b| ==> a == b)
  {
    if a != {} {
      var x :| x in a;
      SubsetSize(a - {x}, b - {x});
    }
  }

  function Least(a: nat, b: nat): nat {
    if a < b then a else b
  }

  lemma {:induction false} IdsSize(listing: seq<MetaChunk>, b: nat)
    requires b <= |listing| && forall i, j | 0 <= i < j < |listing| :: listing[i].id != listing[j].id
    ensures |set i | 0 <= i < b :: listing[i].id| == b
  {
    if b > 0 {
      IdsSize(listing, b - 1);
      var front := set i | 0 <= i < b - 1 :: listing[i].id;
      assert listing[b - 1].id !in front;
      assert (set i | 0 <= i < b :: listing[i].id) == front + {listing[b - 1].id};
    }
  }

  /** Sorted fewest first, the chunks that lack a replica come before those that are merely below three. */
  lemma {:induction false} LackingComeFirst(m: MetaState, listing: seq<MetaChunk>)
    requires IsListing(m, listing) && FewestFirst(listing)
    ensures |Lacking(m)| <= |listing|
    ensures forall j | 0 <= j < |listing| :: |listing[j].storageNodes| < |m.nodes| <==> j < |Lacking(m)|
  {
    var b := 0;
    while b < |listing| && |listing[b].storageNodes| < |m.nodes|
      invariant 0 <= b <= |listing|
      invariant forall j | 0 <= j < b :: |listing[j].storageNodes| < |m.nodes|
    {
      b := b + 1;
    }
    var ids := set i | 0 <= i < b :: listing[i].id;
    forall id | id in Lacking(m)
      ensures id in ids
    {
      assert UnderReplicated(m, id);
      assert Lists(listing, id);
    }
    assert ids == Lacking(m);
    IdsSize(listing, b);
  }

  /** How many of the first `n` listed chunks lack a replica, and so can be helped by a cycle with that limit. */
  function Helpable(m: MetaState, listing: seq<MetaChunk>, n: nat): nat
    requires n <= |listing|
  {
    if n == 0 then 0
    else Helpable(m, listing, n - 1) + (if |listing[n - 1].storageNodes| < |m.nodes| then 1 else 0)
  }

  lemma {:induction false} HelpableWhenFirst(m: MetaState, listing: seq<MetaChunk>, k: nat, n: nat)
    requires n <= |listing| && forall j | 0 <= j < |listing| :: |listing[j].storageNodes| < |m.nodes| <==> j < k
    ensures Helpable(m, listing, n) == Least(n, k)
  {
    if n > 0 {
      HelpableWhenFirst(m, listing, k, n - 1);
    }
  }

  /** A listing wastes no part of any limit if and only if the lacking chunks come first in it. */
  lemma {:induction false} NoLimitWastedIff(m: MetaState, listing: seq<MetaChunk>)
    ensures (forall n: nat | n <= |listing| :: Helpable(m, listing, n) == Least(n, |Lacking(m)|)) <==>
            forall j | 0 <= j < |listing| :: |listing[j].storageNodes| < |m.nodes| <==> j < |Lacking(m)|
  {
    var k := |Lacking(m)|;
    if forall n: nat | n <= |listing| :: Helpable(m, listing, n) == Least(n, k) {
      forall j | 0 <= j < |listing|
        ensures |listing[j].storageNodes| < |m.nodes| <==> j < k
      {
        assert Helpable(m, listing, j) == Least(j, k) && Helpable(m, listing, j + 1) == Least(j + 1, k);
      }
    }
    if forall j | 0 <= j < |listing| :: |listing[j].storageNodes| < |m.nodes| <==> j < k {
      forall n: nat | n <= |listing|
        ensures Helpable(m, listing, n) == Least(n, k)
      {
        HelpableWhenFirst(m, listing, k, n);
      }
    }
  }

  // ---------------------------------------------------------------------------------------
  // One chunk
  // ---------------------------------------------------------------------------------------

  /** The state after one more replica was made: a node without the chunk got the bytes of its first replica, and is recorded. */
  ghost predicate ReplicaAdded(a: ClusterState, b: ClusterState, chunk: MetaChunk, nodes: map<u64, Address>, n: u64, data: seq<byte>) {
    && Eligible(nodes, chunk, n)
    && Crc32.Checksum(data) == chunk.checksum
    && chunk.storageNodes != [] && chunk.storageNodes[0] in a.meta.nodes
    && a.Copy(a.meta.nodes[chunk.storageNodes[0]], chunk.id) == Some(data)
    && a.CanStore(nodes[n], chunk.id)
    && AddChunkReplica(a.meta, chunk.id, n).result.Ok?
    && b == a.Store(nodes[n], chunk.id, data).(meta := AddChunkReplica(a.meta, chunk.id, n).state)
  }

  /** No copy is lost or altered; a copy that is new is one of this chunk, with the checksum it should have. */
  ghost predicate KeepsCopies(a: ClusterState, b: ClusterState, chunk: MetaChunk) {
    && b.disks.Keys == a.disks.Keys
    && forall address, id ::
         || b.Copy(address, id) == a.Copy(address, id)
         || (id == chunk.id && a.Copy(address, id).None? && Crc32.Checksum(b.Copy(address, id).value) == chunk.checksum)
  }

  ghost predicate LosesNoCopy(a: ClusterState, b: ClusterState) {
    forall address, id | a.Copy(address, id).Some? :: b.Copy(address, id) == a.Copy(address, id)
  }

  lemma {:induction false} AddedCopiesMatch(a: ClusterState, b: ClusterState, chunk: MetaChunk, n: u64, data: seq<byte>, id: u64)
    requires forall x, y | x in a.meta.nodes && y in a.meta.nodes && a.meta.nodes[x] == a.meta.nodes[y] :: x == y
    requires chunk.id in a.meta.chunks && a.meta.chunks[chunk.id] == chunk
    requires ReplicaAdded(a, b, chunk, a.meta.nodes, n, data)
    requires id in a.meta.chunks && CopiesMatch(a, id)
    ensures CopiesMatch(b, id)
  {
    forall m | m in b.meta.nodes
      ensures id != chunk.id || m != n ==> b.Copy(b.meta.nodes[m], id) == a.Copy(b.meta.nodes[m], id)
    {
    }
  }

  /** Of a healthy state another replica makes a healthy state, and one replica less is missing. */
  lemma {:induction false} AddedStaysHealthy(a: ClusterState, b: ClusterState, chunk: MetaChunk, n: u64, data: seq<byte>)
    requires Healthy(a) && UnderReplicated(a.meta, chunk.id) && a.meta.chunks[chunk.id] == chunk
    requires ReplicaAdded(a, b, chunk, a.meta.nodes, n, data)
    ensures Healthy(b)
  {
    AddChunkReplicaKeeps(a.meta, chunk.id, n);
    forall id | id in b.meta.chunks && b.meta.chunks[id].status == Confirmed
      ensures CopiesMatch(b, id)
    {
      AddedCopiesMatch(a, b, chunk, n, data, id);
    }
  }

  lemma {:induction false} AddedLowersDeficit(a: MetaState, id: u64, n: u64)
    requires AddChunkReplica(a, id, n).result.Ok?
    ensures var b := AddChunkReplica(a, id, n).state;
            Deficit(b) == if Missing(a, id) > 0 then Deficit(a) - 1 else Deficit(a)
  {
    DeficitOfOneChange(a, AddChunkReplica(a, id, n).state, id);
  }

  /** Nothing stands in the way of replicating the chunk: no faults, a healthy state, and what is known of the chunk is current. */
  ghost predicate Smooth(c: ClusterState, metadataUp: bool, up: set<Address>, chunk: MetaChunk, nodes: map<u64, Address>) {
    && Faultless(c, metadataUp, up) && Healthy(c)
    && UnderReplicated(c.meta, chunk.id) && c.meta.chunks[chunk.id] == chunk
    && nodes == c.meta.nodes
  }

  /** This one chunk can gain a replica, whatever the state of the others: a good source, and nothing but good targets. */
  ghost predicate Replicable(c: ClusterState, metadataUp: bool, up: set<Address>, chunk: MetaChunk) {
    && metadataUp && UnderReplicated(c.meta, chunk.id) && c.meta.chunks[chunk.id] == chunk
    && GoodSource(c, up, chunk)
    && (exists n :: Eligible(c.meta.nodes, chunk, n))
    && forall n | Eligible(c.meta.nodes, chunk, n) :: c.meta.nodes[n] in up && c.CanStore(c.meta.nodes[n], chunk.id)
  }

  /** The first replica can be read, and has the recorded checksum. */
  ghost predicate GoodSource(c: ClusterState, up: set<Address>, chunk: MetaChunk) {
    && chunk.storageNodes != [] && chunk.storageNodes[0] in c.meta.nodes
    && var copy := c.Copy(c.meta.nodes[chunk.storageNodes[0]], chunk.id);
       c.meta.nodes[chunk.storageNodes[0]] in up && copy.Some? && Crc32.Checksum(copy.value) == chunk.checksum
  }

  ghost predicate AllUp(nodes: map<u64, Address>, up: set<Address>) {
    forall n | n in nodes :: nodes[n] in up
  }

  /** In a healthy state without faults these are the chunks that lack a replica. */
  lemma {:induction false} SmoothIsReplicable(c: ClusterState, metadataUp: bool, up: set<Address>, chunk: MetaChunk, nodes: map<u64, Address>)
    requires Smooth(c, metadataUp, up, chunk, nodes)
    ensures Replicable(c, metadataUp, up, chunk) <==> |chunk.storageNodes| < |nodes|
  {
    EligibleIff(nodes, chunk);
    assert CopiesMatch(c, chunk.id);
    assert chunk.storageNodes[0] in chunk.storageNodes;
    forall n | Eligible(c.meta.nodes, chunk, n)
      ensures c.meta.nodes[n] in up && c.CanStore(c.meta.nodes[n], chunk.id)
    {
      assert c.Copy(c.meta.nodes[n], chunk.id).None?;
    }
  }

  lemma {:induction false} StoreThenErase(c: ClusterState, address: Address, id: u64, data: seq<byte>)
    requires c.CanStore(address, id)
    ensures c.Store(address, id, data).Erase(address, id) == c
  {
    assert c.disks[address][id := data] - {id} == c.disks[address];
  }

  /** One attempt at a chunk: one more replica, or no record changed and at most a copy too many. */
  ghost predicate Tried(a: ClusterState, b: ClusterState, chunk: MetaChunk, nodes: map<u64, Address>, done: bool) {
    && KeepsCopies(a, b, chunk)
    && if done then exists n, data :: ReplicaAdded(a, b, chunk, nodes, n, data) else b.meta == a.meta
  }

  class Replicator {
    const remote: Remote

    constructor (remote: Remote)
      ensures this.remote == remote
    {
      this.remote := remote;
    }

    /** Reads the chunk from its first replica and verifies its checksum. */
    method Fetch(chunk: MetaChunk) returns (r: Result<seq<byte>>)
      ensures r.Ok? ==> chunk.storageNodes != [] && chunk.storageNodes[0] in remote.state.meta.nodes
      ensures r.Ok? ==> remote.state.Copy(remote.state.meta.nodes[chunk.storageNodes[0]], chunk.id) == Some(r.value)
      ensures r.Ok? ==> Crc32.Checksum(r.value) == chunk.checksum
      ensures remote.metadataUp && GoodSource(remote.state, remote.up, chunk) ==> r.Ok?
    {
      if chunk.storageNodes == [] {
        return Err(NotFound);
      }
      var source := remote.GetStorageNode(chunk.storageNodes[0]);
      if source.Err? {
        return Err(source.error);
      }
      var data := remote.ReadChunk(source.value, chunk.id);
      if data.Err? {
        return data;
      }
      if Crc32.Checksum(data.value) != chunk.checksum {
        return Err(InvalidData);
      }
      return data;
    }

    /** Writes the copy and records it; a copy that cannot be recorded is erased again, as far as possible. */
    method Deliver(chunk: MetaChunk, n: u64, address: Address, data: seq<byte>) returns (done: bool)
      requires Crc32.Checksum(data) == chunk.checksum
      modifies remote
      ensures done ==> old(remote.state).CanStore(address, chunk.id) && AddChunkReplica(old(remote.state).meta, chunk.id, n).result.Ok?
      ensures done ==> remote.state == old(remote.state).Store(address, chunk.id, data)
                                          .(meta := AddChunkReplica(old(remote.state).meta, chunk.id, n).state)
      ensures !done ==> remote.state.meta == old(remote.state).meta
      ensures !done && address in remote.up ==> remote.state == old(remote.state)
      ensures KeepsCopies(old(remote.state), remote.state, chunk)
      ensures remote.metadataUp && address in remote.up && AddChunkReplica(old(remote.state).meta, chunk.id, n).result.Ok? ==>
                (done <==> old(remote.state).CanStore(address, chunk.id))
    {
      var written := remote.WriteChunk(address, chunk.id, data);
      if written.Err? {
        return false;
      }
      var recorded := remote.AddChunkReplica(chunk.id, n);
      if recorded.Err? {
        var erased := remote.EraseChunk(address, chunk.id);
        StoreThenErase(old(remote.state), address, chunk.id, data);
        return false;
      }
      return true;
    }

    /** Tries to make one more replica of the chunk, on an eligible node of its choice. */
    method ReplicateChunk(chunk: MetaChunk, nodes: map<u64, Address>) returns (done: bool)
      modifies remote
      ensures Tried(old(remote.state), remote.state, chunk, nodes, done)
      ensures !done && AllUp(nodes, remote.up) ==> remote.state == old(remote.state)
      ensures nodes == old(remote.state).meta.nodes && Replicable(old(remote.state), remote.metadataUp, remote.up, chunk) ==> done
      ensures Smooth(old(remote.state), remote.metadataUp, remote.up, chunk, nodes) ==>
                (done <==> |chunk.storageNodes| < |nodes|) && (!done ==> remote.state == old(remote.state))
    {
      ghost var before := remote.state;
      if Smooth(before, remote.metadataUp, remote.up, chunk, nodes) {
        EligibleIff(nodes, chunk);
        SmoothIsReplicable(before, remote.metadataUp, remote.up, chunk, nodes);
      }
      var eligible := set n | n in nodes && Eligible(nodes, chunk, n);
      if eligible == {} {
        assert forall n :: Eligible(nodes, chunk, n) ==> n in eligible;
        return false;
      }
      var n :| n in eligible;
      var space := remote.HasSpace(nodes[n]);
      if !space {
        return false;
      }
      var data := Fetch(chunk);
      if data.Err? {
        return false;
      }
      done := Deliver(chunk, n, nodes[n], data.value);
      if done {
        assert ReplicaAdded(before, remote.state, chunk, nodes, n, data.value);
      }
    }

    /** Asks the metadata node for the under-replicated chunks. */
    method FetchListing() returns (r: Result<seq<MetaChunk>>)
      requires Referential(remote.state.meta)
      ensures r.Ok? ==> IsListing(remote.state.meta, r.value) && FewestFirst(r.value)
      ensures remote.metadataUp ==> r.Ok?
    {
      var lost := remote.Lost();
      if lost {
        return Err(Io);
      }
      var listing := ListUnderReplicated(remote.state.meta);
      return Ok(listing);
    }

    /** The chunk at position `i` of the listing. */
    method ReplicateAt(listing: seq<MetaChunk>, i: nat, nodes: map<u64, Address>) returns (done: bool)
      requires Referential(remote.state.meta)
      requires i < |listing| && Current(remote.state.meta, listing, i) && nodes == remote.state.meta.nodes
      modifies remote
      ensures Attempted(old(remote.state), remote.state, remote.metadataUp, remote.up, listing, i, nodes, done)
    {
      ghost var was := remote.state;
      done := ReplicateChunk(listing[i], nodes);
      if done {
        AddedIsNoWorse(was, remote.state, listing, i, nodes);
      } else {
        UnchangedIsNoWorse(was, remote.state, listing[i]);
      }
    }

    /** The same as one step of a cycle that started at `origin`. */
    method ReplicateNext(listing: seq<MetaChunk>, i: nat, nodes: map<u64, Address>, ghost k: nat, ghost origin: ClusterState, ghost replicated: nat)
      returns (done: bool)
      requires i < |listing| && nodes == remote.state.meta.nodes && (|listing[i].storageNodes| < |nodes| <==> i < k)
      requires Underway(origin, remote.state, remote.metadataUp, remote.up, listing, i, k, replicated)
      modifies remote
      ensures remote.state.meta.nodes == nodes
      ensures Underway(origin, remote.state, remote.metadataUp, remote.up, listing, i + 1, k, if done then replicated + 1 else replicated)
    {
      ghost var was := remote.state;
      done := ReplicateAt(listing, i, nodes);
      UnderwayNext(origin, was, remote.state, remote.metadataUp, remote.up, listing, i, k, nodes, replicated, done);
    }

    /** The loop over the chunks of a cycle; the first `k` of them lack a replica. */
    method ProcessListing(listing: seq<MetaChunk>, nodes: map<u64, Address>, ghost k: nat) returns (replicated: nat)
      requires Referential(remote.state.meta)
      requires Current(remote.state.meta, listing, 0) && nodes == remote.state.meta.nodes
      requires forall j | 0 <= j < |listing| :: |listing[j].storageNodes| < |nodes| <==> j < k
      modifies remote
      ensures Underway(old(remote.state), remote.state, remote.metadataUp, remote.up, listing, |listing|, k, replicated)
    {
      replicated := 0;
      var i := 0;
      NothingWorked(remote.state, remote.metadataUp, remote.up, listing, k);
      while i < |listing|
        invariant 0 <= i <= |listing| && remote.state.meta.nodes == nodes
        invariant Underway(old(remote.state), remote.state, remote.metadataUp, remote.up, listing, i, k, replicated)
      {
        var done := ReplicateNext(listing, i, nodes, k, old(remote.state), replicated);
        if done {
          replicated := replicated + 1;
        }
        i := i + 1;
      }
    }

    /**
     * One cycle. Whatever fails, nothing gets worse: the deficit does not grow and no copy is lost. Without
     * faults, a healthy state stays healthy, and as many of the lacking chunks as the limit allows gain a replica.
     * Faults elsewhere do not matter to a chunk: within the limit, each that can gain a replica does.
     */
    method RunCycle(limit: nat) returns (replicated: nat)
      requires Referential(remote.state.meta)
      modifies remote
      ensures NoWorse(old(remote.state), remote.state)
      ensures Cycled(old(remote.state), remote.state, remote.metadataUp, remote.up, limit, replicated)
      ensures Faultless(old(remote.state), remote.metadataUp, remote.up) && Healthy(old(remote.state)) ==>
                && Progress(old(remote.state), remote.state, replicated)
                && replicated == Least(limit, |Lacking(old(remote.state).meta)|)
    {
      ghost var origin := remote.state;
      NothingCycled(origin, remote.metadataUp, remote.up, limit);
      var found := FetchListing();
      if found.Err? {
        return 0;
      }
      var listing := found.value;
      LackingComeFirst(remote.state.meta, listing);
      var known := remote.ListStorageNodes();
      if listing == [] || known.Err? || known.value == map[] {
        NoneLackingWithoutNodes(remote.state.meta);
        return 0;
      }
      ghost var k := |Lacking(remote.state.meta)|;
      replicated := ProcessListing(listing[..Least(limit, |listing|)], known.value, k);
      CycleIsOver(origin, remote.state, remote.metadataUp, remote.up, listing, limit, replicated);
    }

    /** Without faults, a positive limit per cycle leads to full replication, in at most as many cycles as replicas were missing. */
    method RunCycles(n: nat, limit: nat)
      requires Referential(remote.state.meta)
      modifies remote
      ensures NoWorse(old(remote.state), remote.state)
      ensures AllUp(old(remote.state).meta.nodes, remote.up) ==> NoStray(old(remote.state), remote.state)
      ensures Faultless(old(remote.state), remote.metadataUp, remote.up) && Healthy(old(remote.state)) && limit > 0 ==>
                && Healthy(remote.state)
                && (Deficit(old(remote.state).meta) <= n ==> Deficit(remote.state.meta) == 0)
    {
      ghost var origin := remote.state;
      ghost var good := Faultless(origin, remote.metadataUp, remote.up) && Healthy(origin) && limit > 0;
      var i := 0;
      while i < n
        invariant 0 <= i <= n
        invariant NoWorse(origin, remote.state)
        invariant AllUp(origin.meta.nodes, remote.up) ==> NoStray(origin, remote.state)
        invariant good ==> Healthy(remote.state)
        invariant good ==> Deficit(remote.state.meta) == 0 || Deficit(remote.state.meta) + i <= Deficit(origin.meta)
      {
        ghost var was := remote.state;
        SomeLackIfDeficit(was.meta);
        var replicated := RunCycle(limit);
        NoWorseTwice(origin, was, remote.state);
        i := i + 1;
      }
    }
  }

  // ---------------------------------------------------------------------------------------
  // Steps of a cycle
  // ---------------------------------------------------------------------------------------

  lemma {:induction false} SomeLackIfDeficit(m: MetaState)
    ensures Deficit(m) > 0 <==> |Lacking(m)| > 0
  {
    NoDeficitMeansNoneLacking(m, m.chunks.Keys);
    if Deficit(m) > 0 {
      var id :| id in m.chunks.Keys && Missing(m, id) != 0;
      assert id in Lacking(m);
    }
  }

  /** From position `i` on, the listing says what the metadata says. */
  ghost predicate Current(m: MetaState, listing: seq<MetaChunk>, i: nat) {
    && (forall j, l | 0 <= j < l < |listing| :: listing[j].id != listing[l].id)
    && (forall j | i <= j < |listing| :: UnderReplicated(m, listing[j].id) && m.chunks[listing[j].id] == listing[j])
  }

  ghost predicate NoWorse(a: ClusterState, b: ClusterState) {
    && Referential(b.meta)
    && b.meta.nodes == a.meta.nodes && b.meta.objects == a.meta.objects
    && Deficit(b.meta) <= Deficit(a.meta)
    && LosesNoCopy(a, b)
  }

  /** The chunk has one more replica, on a registered node that did not have it and has it now, with the recorded checksum. */
  ghost predicate Gained(a: ClusterState, b: ClusterState, id: u64) {
    id in a.meta.chunks && id in b.meta.chunks && exists n :: GainedAt(a, b, id, n)
  }

  ghost predicate GainedAt(a: ClusterState, b: ClusterState, id: u64, n: u64)
    requires id in a.meta.chunks && id in b.meta.chunks
  {
    && Eligible(a.meta.nodes, a.meta.chunks[id], n)
    && b.meta.chunks[id] == a.meta.chunks[id].(storageNodes := a.meta.chunks[id].storageNodes + [n])
    && a.Copy(a.meta.nodes[n], id).None?
    && var copy := b.Copy(a.meta.nodes[n], id); copy.Some? && Crc32.Checksum(copy.value) == a.meta.chunks[id].checksum
  }

  /** The chunks whose records differ. */
  ghost function Changed(a: MetaState, b: MetaState): set<u64> {
    set id | id in a.chunks && RecordOf(b.chunks, id) != RecordOf(a.chunks, id)
  }

  ghost function AllUnderReplicated(m: MetaState): set<u64> {
    set id | id in m.chunks && UnderReplicated(m, id)
  }

  ghost predicate ListedBefore(listing: seq<MetaChunk>, i: nat, id: u64) {
    exists j | 0 <= j < i && j < |listing| :: listing[j].id == id
  }

  /** The first `i` listed chunks have been tried, `replicated` of them with success, and nothing else is different. */
  ghost predicate Worked(a: ClusterState, b: ClusterState, listing: seq<MetaChunk>, i: nat, replicated: nat) {
    && b.meta.nodes == a.meta.nodes && b.disks.Keys == a.disks.Keys && b.meta.chunks.Keys == a.meta.chunks.Keys
    && (forall id | !ListedBefore(listing, i, id) :: SameChunk(a, b, id))
    && (forall id | id in Changed(a.meta, b.meta) :: Gained(a, b, id))
    && |Changed(a.meta, b.meta)| == replicated <= i
  }

  /** Besides, with all nodes up there is no copy without a record, and each chunk tried that could gain a replica has. */
  ghost predicate CycleUpTo(a: ClusterState, b: ClusterState, metadataUp: bool, up: set<Address>, listing: seq<MetaChunk>, i: nat, replicated: nat) {
    && Worked(a, b, listing, i, replicated)
    && (AllUp(a.meta.nodes, up) ==> NoStray(a, b))
    && forall j | 0 <= j < i && j < |listing| && Replicable(a, metadataUp, up, listing[j]) :: Gained(a, b, listing[j].id)
  }

  /**
   * A cycle after `i` of the listed chunks, of which the first `k` lack a replica. Nothing has become worse, and
   * without faults each lacking chunk so far has gained a replica.
   */
  ghost predicate Underway(a: ClusterState, b: ClusterState, metadataUp: bool, up: set<Address>,
                           listing: seq<MetaChunk>, i: nat, k: nat, replicated: nat) {
    && NoWorse(a, b) && Current(b.meta, listing, i)
    && CycleUpTo(a, b, metadataUp, up, listing, i, replicated)
    && (Faultless(a, metadataUp, up) && Healthy(a) ==> Progress(a, b, replicated) && replicated == Least(i, k))
  }

  /** The chunk at position `i` has been tried, and nothing has become worse. */
  ghost predicate Attempted(a: ClusterState, b: ClusterState, metadataUp: bool, up: set<Address>,
                            listing: seq<MetaChunk>, i: nat, nodes: map<u64, Address>, done: bool)
    requires i < |listing|
  {
    && NoWorse(a, b) && Current(b.meta, listing, i + 1)
    && Tried(a, b, listing[i], nodes, done)
    && (!done && AllUp(nodes, up) ==> b == a)
    && (Replicable(a, metadataUp, up, listing[i]) ==> done)
    && (Faultless(a, metadataUp, up) && Healthy(a) ==>
          (done <==> |listing[i].storageNodes| < |nodes|) && Progress(a, b, if done then 1 else 0))
  }

  lemma {:induction false} UnderwayNext(a: ClusterState, was: ClusterState, b: ClusterState, metadataUp: bool, up: set<Address>, listing: seq<MetaChunk>,
                                        i: nat, k: nat, nodes: map<u64, Address>, replicated: nat, done: bool)
    requires i < |listing| && nodes == was.meta.nodes && (|listing[i].storageNodes| < |nodes| <==> i < k)
    requires Underway(a, was, metadataUp, up, listing, i, k, replicated)
    requires Attempted(was, b, metadataUp, up, listing, i, nodes, done)
    ensures Underway(a, b, metadataUp, up, listing, i + 1, k, if done then replicated + 1 else replicated)
  {
    NoWorseTwice(a, was, b);
    CycleOneOn(a, was, b, metadataUp, up, listing, i, nodes, replicated, done);
    ProgressTwice(a, was, b, metadataUp, up, replicated, done);
  }

  lemma {:induction false} ProgressTwice(a: ClusterState, was: ClusterState, b: ClusterState, metadataUp: bool, up: set<Address>, replicated: nat, done: bool)
    requires was.meta.nodes == a.meta.nodes
    ensures Faultless(was, metadataUp, up) <==> Faultless(a, metadataUp, up)
    ensures Progress(a, was, replicated) && Progress(was, b, if done then 1 else 0) ==>
              Healthy(was) && Progress(a, b, if done then replicated + 1 else replicated)
  {
  }

  /**
   * What a cycle has done, whatever failed: as many chunks as it counts, within the limit, have one more replica
   * and the others the same; with all nodes up every new copy is recorded; and if the limit covers all chunks
   * below three replicas, each that could gain a replica has.
   */
  ghost predicate Cycled(a: ClusterState, b: ClusterState, metadataUp: bool, up: set<Address>, limit: nat, replicated: nat) {
    && b.meta.chunks.Keys == a.meta.chunks.Keys
    && (forall id | id in Changed(a.meta, b.meta) :: Gained(a, b, id))
    && |Changed(a.meta, b.meta)| == replicated <= limit
    && (AllUp(a.meta.nodes, up) ==> NoStray(a, b))
    && (|AllUnderReplicated(a.meta)| <= limit ==>
          forall id | UnderReplicated(a.meta, id) && Replicable(a, metadataUp, up, a.meta.chunks[id]) :: Gained(a, b, id))
  }

  /** Every copy that is new is recorded. */
  ghost predicate NoStray(a: ClusterState, b: ClusterState) {
    && b.meta.nodes == a.meta.nodes
    && (forall address, id | RecordedAt(a.meta, id, address) :: RecordedAt(b.meta, id, address))
    && (forall address, id | a.Copy(address, id).None? && b.Copy(address, id).Some? :: RecordedAt(b.meta, id, address))
  }

  lemma {:induction false} NoStrayTwice(a: ClusterState, b: ClusterState, c: ClusterState)
    requires NoStray(a, b) && NoStray(b, c)
    ensures NoStray(a, c)
  {
    forall address, id | a.Copy(address, id).None? && c.Copy(address, id).Some?
      ensures RecordedAt(c.meta, id, address)
    {
      if b.Copy(address, id).Some? {
        assert RecordedAt(b.meta, id, address);
      }
    }
  }

  lemma {:induction false} NothingWorked(a: ClusterState, metadataUp: bool, up: set<Address>, listing: seq<MetaChunk>, k: nat)
    requires Referential(a.meta) && Current(a.meta, listing, 0)
    ensures Underway(a, a, metadataUp, up, listing, 0, k, 0)
  {
    assert Changed(a.meta, a.meta) == {};
  }

  /** Doing nothing is right when no chunk can gain a replica. */
  lemma {:induction false} NothingCycled(a: ClusterState, metadataUp: bool, up: set<Address>, limit: nat)
    ensures (forall id | UnderReplicated(a.meta, id) :: !Replicable(a, metadataUp, up, a.meta.chunks[id])) ==>
              Cycled(a, a, metadataUp, up, limit, 0)
  {
    assert Changed(a.meta, a.meta) == {};
  }

  lemma {:induction false} CycleOneOn(a: ClusterState, was: ClusterState, b: ClusterState, metadataUp: bool, up: set<Address>,
                                      listing: seq<MetaChunk>, i: nat, nodes: map<u64, Address>, replicated: nat, done: bool)
    requires CycleUpTo(a, was, metadataUp, up, listing, i, replicated) && i < |listing| && Current(was.meta, listing, i)
    requires Tried(was, b, listing[i], nodes, done) && nodes == was.meta.nodes
    requires !done && AllUp(nodes, up) ==> b == was
    requires Replicable(was, metadataUp, up, listing[i]) ==> done
    ensures CycleUpTo(a, b, metadataUp, up, listing, i + 1, if done then replicated + 1 else replicated)
  {
    OneMoreWorked(a, was, b, listing, i, nodes, replicated, done);
    if AllUp(nodes, up) {
      StillNoStray(a, was, b, listing[i], nodes, done);
    }
    if Replicable(a, metadataUp, up, listing[i]) {
      StillReplicable(a, was, metadataUp, up, listing[i]);
    }
  }

  lemma {:induction false} CycleIsOver(a: ClusterState, b: ClusterState, metadataUp: bool, up: set<Address>,
                                       listing: seq<MetaChunk>, limit: nat, replicated: nat)
    requires IsListing(a.meta, listing)
    requires var n := Least(limit, |listing|); CycleUpTo(a, b, metadataUp, up, listing[..n], n, replicated)
    ensures Cycled(a, b, metadataUp, up, limit, replicated)
  {
    var n := Least(limit, |listing|);
    if |AllUnderReplicated(a.meta)| <= limit {
      IdsSize(listing, |listing|);
      var ids := set i | 0 <= i < |listing| :: listing[i].id;
      assert forall id | id in AllUnderReplicated(a.meta) :: Lists(listing, id);
      assert ids == AllUnderReplicated(a.meta);
      forall id | UnderReplicated(a.meta, id) && Replicable(a, metadataUp, up, a.meta.chunks[id])
        ensures Gained(a, b, id)
      {
        assert Lists(listing, id);
        var j :| 0 <= j < |listing| && listing[j].id == id;
        assert listing[..n][j] == listing[j];
      }
    }
  }

  /** One attempt leaves every other chunk alone. */
  lemma {:induction false} TriedLeavesOthers(a: ClusterState, b: ClusterState, chunk: MetaChunk, nodes: map<u64, Address>, done: bool, id: u64)
    requires Tried(a, b, chunk, nodes, done) && id != chunk.id
    ensures SameChunk(a, b, id)
  {
  }

  lemma {:induction false} AddedIsGained(a: ClusterState, b: ClusterState, chunk: MetaChunk, nodes: map<u64, Address>)
    requires Tried(a, b, chunk, nodes, true) && nodes == a.meta.nodes
    requires chunk.id in a.meta.chunks && a.meta.chunks[chunk.id] == chunk
    ensures Gained(a, b, chunk.id) && b.meta.chunks.Keys == a.meta.chunks.Keys && b.meta.nodes == a.meta.nodes
  {
    var n, data :| ReplicaAdded(a, b, chunk, nodes, n, data);
    assert GainedAt(a, b, chunk.id, n);
  }

  /** What a chunk gained it has gained in view of any earlier state in which the chunk was the same, and keeps while it is the same. */
  lemma {:induction false} GainedBetween(a: ClusterState, was: ClusterState, b: ClusterState, c: ClusterState, id: u64)
    requires SameChunk(a, was, id) && was.meta.nodes == a.meta.nodes && Gained(was, b, id) && SameChunk(b, c, id)
    ensures Gained(a, c, id)
  {
    var n :| GainedAt(was, b, id, n);
    assert RecordOf(was.meta.chunks, id) == RecordOf(a.meta.chunks, id) && RecordOf(c.meta.chunks, id) == RecordOf(b.meta.chunks, id);
    assert GainedAt(a, c, id, n);
  }

  lemma {:induction false} OneMoreWorked(a: ClusterState, was: ClusterState, b: ClusterState, listing: seq<MetaChunk>, i: nat,
                                         nodes: map<u64, Address>, replicated: nat, done: bool)
    requires Worked(a, was, listing, i, replicated) && i < |listing| && Current(was.meta, listing, i)
    requires Tried(was, b, listing[i], nodes, done) && nodes == was.meta.nodes
    ensures Worked(a, b, listing, i + 1, if done then replicated + 1 else replicated)
    ensures SameChunk(a, was, listing[i].id) && (done ==> Gained(a, b, listing[i].id))
    ensures forall id | id != listing[i].id && Gained(a, was, id) :: Gained(a, b, id)
  {
    var id := listing[i].id;
    NotTriedYet(a, was, listing, i);
    forall other | other != id
      ensures SameChunk(was, b, other)
    {
      TriedLeavesOthers(was, b, listing[i], nodes, done, other);
    }
    OthersKeepGain(a, was, b, id);
    TriedOne(a, was, b, listing[i], nodes, done);
    RestIsSame(a, was, b, listing, i);
    ChangedAreGained(a, was, b, id, done);
  }

  lemma {:induction false} NotTriedYet(a: ClusterState, was: ClusterState, listing: seq<MetaChunk>, i: nat)
    requires i < |listing| && Current(was.meta, listing, i)
    requires forall id | !ListedBefore(listing, i, id) :: SameChunk(a, was, id)
    ensures SameChunk(a, was, listing[i].id)
  {
    assert !ListedBefore(listing, i, listing[i].id);
  }

  lemma {:induction false} ChangedAreGained(a: ClusterState, was: ClusterState, b: ClusterState, id: u64, done: bool)
    requires id in a.meta.chunks && SameChunk(a, was, id)
    requires forall other | other != id :: SameChunk(was, b, other)
    requires done <==> RecordOf(b.meta.chunks, id) != RecordOf(a.meta.chunks, id)
    requires done ==> Gained(a, b, id)
    requires forall other | other in Changed(a.meta, was.meta) :: Gained(a, was, other)
    requires forall other | other != id && Gained(a, was, other) :: Gained(a, b, other)
    ensures forall other | other in Changed(a.meta, b.meta) :: Gained(a, b, other)
    ensures |Changed(a.meta, b.meta)| == |Changed(a.meta, was.meta)| + if done then 1 else 0
  {
    forall other | other != id
      ensures RecordOf(b.meta.chunks, other) == RecordOf(was.meta.chunks, other)
    {
      assert SameChunk(was, b, other);
    }
    ChangedByOne(a.meta, was.meta, b.meta, id, done);
  }

  lemma {:induction false} TriedOne(a: ClusterState, was: ClusterState, b: ClusterState, chunk: MetaChunk, nodes: map<u64, Address>, done: bool)
    requires Tried(was, b, chunk, nodes, done) && nodes == was.meta.nodes == a.meta.nodes && SameChunk(a, was, chunk.id)
    requires chunk.id in was.meta.chunks && was.meta.chunks[chunk.id] == chunk
    ensures b.meta.nodes == was.meta.nodes && b.disks.Keys == was.disks.Keys && b.meta.chunks.Keys == was.meta.chunks.Keys
    ensures done <==> RecordOf(b.meta.chunks, chunk.id) != RecordOf(a.meta.chunks, chunk.id)
    ensures done ==> Gained(a, b, chunk.id)
  {
    if done {
      AddedIsGained(was, b, chunk, nodes);
      GainedBetween(a, was, b, b, chunk.id);
    }
  }

  lemma {:induction false} RestIsSame(a: ClusterState, was: ClusterState, b: ClusterState, listing: seq<MetaChunk>, i: nat)
    requires i < |listing|
    requires forall id | !ListedBefore(listing, i, id) :: SameChunk(a, was, id)
    requires forall id | id != listing[i].id :: SameChunk(was, b, id)
    ensures forall id | !ListedBefore(listing, i + 1, id) :: SameChunk(a, b, id)
  {
    forall id | !ListedBefore(listing, i + 1, id)
      ensures SameChunk(a, b, id)
    {
      assert id != listing[i].id;
      assert !ListedBefore(listing, i, id);
      assert SameChunk(a, was, id) && SameChunk(was, b, id);
    }
  }

  lemma {:induction false} OthersKeepGain(a: ClusterState, was: ClusterState, b: ClusterState, id: u64)
    requires forall other | other != id :: SameChunk(was, b, other)
    ensures forall other | other != id && Gained(a, was, other) :: Gained(a, b, other)
  {
    forall other | other != id && Gained(a, was, other)
      ensures Gained(a, b, other)
    {
      var n :| GainedAt(a, was, other, n);
      assert SameChunk(was, b, other);
      assert RecordOf(b.meta.chunks, other) == RecordOf(was.meta.chunks, other);
      assert GainedAt(a, b, other, n);
    }
  }

  lemma {:induction false} ChangedByOne(a: MetaState, was: MetaState, b: MetaState, id: u64, done: bool)
    requires id in a.chunks && RecordOf(was.chunks, id) == RecordOf(a.chunks, id)
    requires forall other | other != id :: RecordOf(b.chunks, other) == RecordOf(was.chunks, other)
    requires done <==> RecordOf(b.chunks, id) != RecordOf(a.chunks, id)
    ensures Changed(a, b) == if done then Changed(a, was) + {id} else Changed(a, was)
    ensures |Changed(a, b)| == |Changed(a, was)| + if done then 1 else 0
  {
    assert id !in Changed(a, was);
    assert Changed(a, b) == if done then Changed(a, was) + {id} else Changed(a, was);
  }

  lemma {:induction false} StillNoStray(a: ClusterState, was: ClusterState, b: ClusterState, chunk: MetaChunk, nodes: map<u64, Address>, done: bool)
    requires NoStray(a, was) && Tried(was, b, chunk, nodes, done) && (!done ==> b == was)
    requires nodes == was.meta.nodes
    ensures NoStray(a, b)
  {
    if done {
      var n, data :| ReplicaAdded(was, b, chunk, nodes, n, data);
      AddedIsRecorded(was, b, chunk, nodes, n, data);
      NoStrayTwice(a, was, b);
    }
  }

  lemma {:induction false} AddedIsRecorded(a: ClusterState, b: ClusterState, chunk: MetaChunk, nodes: map<u64, Address>, n: u64, data: seq<byte>)
    requires ReplicaAdded(a, b, chunk, nodes, n, data) && nodes == a.meta.nodes
    ensures NoStray(a, b)
  {
    var before, after := a.meta.chunks[chunk.id].storageNodes, b.meta.chunks[chunk.id].storageNodes;
    assert after == before + [n];
    forall address, id | RecordedAt(a.meta, id, address)
      ensures RecordedAt(b.meta, id, address)
    {
      var m :| m in a.meta.chunks[id].storageNodes && m in a.meta.nodes && a.meta.nodes[m] == address;
      assert m in b.meta.chunks[id].storageNodes;
    }
    assert n in after && b.meta.nodes[n] == nodes[n];
    forall address, id | a.Copy(address, id).None? && b.Copy(address, id).Some?
      ensures address == nodes[n] && id == chunk.id
    {
    }
  }

  lemma {:induction false} StillReplicable(a: ClusterState, b: ClusterState, metadataUp: bool, up: set<Address>, chunk: MetaChunk)
    requires Replicable(a, metadataUp, up, chunk) && SameChunk(a, b, chunk.id)
    requires b.meta.nodes == a.meta.nodes && b.disks.Keys == a.disks.Keys
    ensures Replicable(b, metadataUp, up, chunk)
  {
    assert RecordOf(b.meta.chunks, chunk.id) == Some(chunk);
    forall n | Eligible(b.meta.nodes, chunk, n)
      ensures b.meta.nodes[n] in up && b.CanStore(b.meta.nodes[n], chunk.id)
    {
      assert a.Copy(a.meta.nodes[n], chunk.id).None?;
    }
  }

  /** The state is still healthy, and what was replicated is what is missing less. */
  ghost predicate Progress(a: ClusterState, b: ClusterState, replicated: nat) {
    Healthy(b) && Deficit(b.meta) + replicated == Deficit(a.meta)
  }

  lemma {:induction false} NoWorseTwice(a: ClusterState, b: ClusterState, c: ClusterState)
    requires NoWorse(a, b) && NoWorse(b, c)
    ensures NoWorse(a, c)
  {
  }

  lemma {:induction false} UnchangedIsNoWorse(a: ClusterState, b: ClusterState, chunk: MetaChunk)
    requires Referential(a.meta) && b.meta == a.meta && KeepsCopies(a, b, chunk)
    ensures NoWorse(a, b)
  {
  }

  lemma {:induction false} StoringLosesNothing(a: ClusterState, b: ClusterState, address: Address, id: u64, data: seq<byte>)
    requires a.CanStore(address, id) && b.disks == a.Store(address, id, data).disks
    ensures LosesNoCopy(a, b)
  {
  }

  lemma {:induction false} RestIsCurrent(m: MetaState, listing: seq<MetaChunk>, i: nat, n: u64)
    requires Current(m, listing, i) && i < |listing|
    ensures Current(AddChunkReplica(m, listing[i].id, n).state, listing, i + 1)
  {
    var t := AddChunkReplica(m, listing[i].id, n).state;
    forall j | i + 1 <= j < |listing|
      ensures UnderReplicated(t, listing[j].id) && t.chunks[listing[j].id] == listing[j]
    {
      assert listing[j].id != listing[i].id;
    }
  }

  /** One more replica, for the chunk at position `i`. */
  lemma {:induction false} AddedIsNoWorse(a: ClusterState, b: ClusterState, listing: seq<MetaChunk>, i: nat, nodes: map<u64, Address>)
    requires Referential(a.meta) && Current(a.meta, listing, i) && i < |listing| && nodes == a.meta.nodes
    requires exists n, data :: ReplicaAdded(a, b, listing[i], nodes, n, data)
    ensures NoWorse(a, b) && Current(b.meta, listing, i + 1)
    ensures Healthy(a) ==> Healthy(b)
    ensures |listing[i].storageNodes| < |nodes| ==> Deficit(b.meta) + 1 == Deficit(a.meta)
  {
    var n, data :| ReplicaAdded(a, b, listing[i], nodes, n, data);
    var id := listing[i].id;
    assert Referential(b.meta) by {
      AddChunkReplicaKeeps(a.meta, id, n);
    }
    assert Deficit(b.meta) == if Missing(a.meta, id) > 0 then Deficit(a.meta) - 1 else Deficit(a.meta) by {
      AddedLowersDeficit(a.meta, id, n);
    }
    assert LosesNoCopy(a, b) by {
      StoringLosesNothing(a, b, nodes[n], id, data);
    }
    assert Current(b.meta, listing, i + 1) by {
      RestIsCurrent(a.meta, listing, i, n);
    }
    if Healthy(a) {
      AddedStaysHealthy(a, b, listing[i], n, data);
    }
  }

  lemma {:induction false} NoneLackingWithoutNodes(m: MetaState)
    ensures m.nodes == map[] ==> Lacking(m) == {}
  {
  }

  /** Two nodes, a chunk on both and a chunk on one. */
  ghost function TwoNodes(data: seq<byte>): ClusterState {
    var sum := Crc32.Checksum(data);
    var both, one := MetaChunk(1, "x", sum, [1, 2], Confirmed), MetaChunk(2, "x", sum, [1], Confirmed);
    var left: Disk, right: Disk := map[1 := data, 2 := data], map[1 := data];
    ClusterState(MetaState(map[], map[1 := both, 2 := one], map[1 := "a", 2 := "b"]), map["a" := left, "b" := right])
  }

  lemma {:induction false} TwoNodesMatch(data: seq<byte>, id: u64)
    requires id in TwoNodes(data).meta.chunks
    ensures CopiesMatch(TwoNodes(data), id)
  {
    assert "a"[0] != "b"[0];
  }

  lemma {:induction false} TwoNodesAreReferential(data: seq<byte>)
    ensures Referential(TwoNodes(data).meta)
  {
  }

  lemma {:induction false} TwoNodesAreHealthy(data: seq<byte>)
    ensures Healthy(TwoNodes(data))
  {
    var c := TwoNodes(data);
    TwoNodesAreReferential(data);
    assert "a"[0] != "b"[0];
    forall id | id in c.meta.chunks && c.meta.chunks[id].status == Confirmed
      ensures CopiesMatch(c, id)
    {
      TwoNodesMatch(data, id);
    }
  }

  lemma {:induction false} TwoNodesLackOne(data: seq<byte>)
    ensures var m := TwoNodes(data).meta; IsListing(m, [m.chunks[1], m.chunks[2]]) && Deficit(m) > 0
  {
    var m := TwoNodes(data).meta;
    var listing := [m.chunks[1], m.chunks[2]];
    assert listing[0].id == 1 && listing[1].id == 2;
    assert m.nodes.Keys == {1, 2};
    assert Missing(m, 2) == 1;
    NoDeficitMeansNoneLacking(m, m.chunks.Keys);
  }

  /**
   * The order matters. With two nodes, a chunk on both and a chunk on one are both listed; a listing that
   * starts with the former leaves a cycle of limit one nothing to do, although the latter lacks a replica.
   */
  lemma {:induction false} ABadOrderStarves(data: seq<byte>)
    ensures exists c: ClusterState, listing ::
              && Healthy(c) && IsListing(c.meta, listing) && Deficit(c.meta) > 0
              && listing != [] && !exists n :: Eligible(c.meta.nodes, listing[0], n)
  {
    var c := TwoNodes(data);
    TwoNodesAreHealthy(data);
    TwoNodesLackOne(data);
    var listing := [c.meta.chunks[1], c.meta.chunks[2]];
    assert forall n :: !Eligible(c.meta.nodes, listing[0], n);
  }
}
