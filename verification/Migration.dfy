/**
 * A joining metadata node pulls the objects it now owns from its peers: every peer streams the
 * objects in the joiner's hash ranges with their chunk records, and the joiner ingests them.
 */
module Migration {
  import opened Base
  import opened Metadata
  import opened MetadataInvariants
  import opened MetadataStore
  import opened HashRing
  import opened ClusterService

  // ---------------------------------------------------------------------------------------
  // The sending side
  // ---------------------------------------------------------------------------------------

  /** An object with the chunk records found for its list. */
  datatype Transfer = Transfer(obj: MetaObject, records: seq<MetaChunk>)

  /** The records of the listed chunks that exist, in list order. */
  function FoundRecords(chunks: map<u64, MetaChunk>, ids: seq<u64>): seq<MetaChunk> {
    if ids == [] then []
    else
      var before := FoundRecords(chunks, ids[..|ids| - 1]);
      var id := ids[|ids| - 1];
      if id in chunks then before + [chunks[id]] else before
  }

  function TransferOf(s: MetaState, name: string): Transfer
    requires name in s.objects
  {
    Transfer(s.objects[name], FoundRecords(s.chunks, s.objects[name].chunks))
  }

  /** `part` is what a store in state `s` sends for the given ranges, in some order of the objects. */
  ghost predicate IsPartition(s: MetaState, ranges: seq<(u64, u64)>, part: seq<Transfer>) {
    && (forall i | 0 <= i < |part| ::
          var name := part[i].obj.name;
          name in s.objects && HashInRanges(HashKey(name), ranges) && part[i] == TransferOf(s, name))
    && (forall name | name in s.objects && HashInRanges(HashKey(name), ranges) ::
          exists i :: 0 <= i < |part| && part[i].obj.name == name)
    && (forall i, j | 0 <= i < j < |part| :: part[i].obj.name != part[j].obj.name)
  }

  method CollectRecords(store: MetadataStore, ids: seq<u64>) returns (records: seq<MetaChunk>)
    ensures records == FoundRecords(store.chunks, ids)
  {
    records := [];
    var i := 0;
    while i < |ids|
      invariant 0 <= i <= |ids|
      invariant records == FoundRecords(store.chunks, ids[..i])
    {
      assert ids[..i + 1][..i] == ids[..i];
      if ids[i] in store.chunks {
        records := records + [store.chunks[ids[i]]];
      }
      i := i + 1;
    }
    assert ids[..i] == ids;
  }

  /** The objects whose names hash into any of the given ranges, with their chunks. */
  method ObjectsInHashRanges(store: MetadataStore, ranges: seq<(u64, u64)>) returns (part: seq<Transfer>)
    requires Referential(store.State())
    ensures IsPartition(store.State(), ranges, part)
  {
    part := [];
    var rest := store.objects.Keys;
    while rest != {}
      invariant rest <= store.objects.Keys
      invariant forall i | 0 <= i < |part| ::
                  var name := part[i].obj.name;
                  name in store.objects && name !in rest && HashInRanges(HashKey(name), ranges) &&
                  part[i] == TransferOf(store.State(), name)
      invariant forall name | name in store.objects && name !in rest && HashInRanges(HashKey(name), ranges) ::
                  exists i :: 0 <= i < |part| && part[i].obj.name == name
      invariant forall i, j | 0 <= i < j < |part| :: part[i].obj.name != part[j].obj.name
      decreases |rest|
    {
      var key :| key in rest;
      var obj := store.objects[key];
      ghost var before := part;
      if HashInRanges(HashKey(obj.name), ranges) {
        var records := CollectRecords(store, obj.chunks);
        part := part + [Transfer(obj, records)];
        assert part[|before|].obj.name == key;
      }
      assert forall i | 0 <= i < |before| :: part[i] == before[i];
      rest := rest - {key};
    }
  }

  // ---------------------------------------------------------------------------------------
  // The stream
  // ---------------------------------------------------------------------------------------

  /** One message of the stream; neither an object's size nor a chunk's status is transmitted. */
  datatype Entry =
    | ObjectEntry(name: string, checksum: u32, chunkIds: seq<u64>)
    | ChunkEntry(id: u64, objectName: string, chunkChecksum: u32, storageNodeIds: seq<u64>)

  function ChunkEntries(records: seq<MetaChunk>): seq<Entry> {
    seq(|records|, i requires 0 <= i < |records| =>
      ChunkEntry(records[i].id, records[i].objectName, records[i].checksum, records[i].storageNodes))
  }

  function Entries(part: seq<Transfer>): seq<Entry> {
    if part == [] then []
    else
      var t := part[|part| - 1];
      Entries(part[..|part| - 1])
        + [ObjectEntry(t.obj.name, t.obj.checksum, t.obj.chunks)]
        + ChunkEntries(t.records)
  }

  method TransferPartition(store: MetadataStore, ranges: seq<(u64, u64)>) returns (entries: seq<Entry>)
    requires Referential(store.State())
    ensures exists part :: IsPartition(store.State(), ranges, part) && entries == Entries(part)
  {
    var transfers := ObjectsInHashRanges(store, ranges);
    entries := [];
    var i := 0;
    while i < |transfers|
      invariant 0 <= i <= |transfers|
      invariant entries == Entries(transfers[..i])
    {
      assert transfers[..i + 1][..i] == transfers[..i];
      var obj := transfers[i].obj;
      entries := entries + [ObjectEntry(obj.name, obj.checksum, obj.chunks)];
      ghost var before := entries;
      var records := transfers[i].records;
      var j := 0;
      while j < |records|
        invariant 0 <= j <= |records|
        invariant entries == before + ChunkEntries(records)[..j]
      {
        var c := records[j];
        entries := entries + [ChunkEntry(c.id, c.objectName, c.checksum, c.storageNodes)];
        j := j + 1;
      }
      assert ChunkEntries(records)[..j] == ChunkEntries(records);
      i := i + 1;
    }
    assert transfers[..i] == transfers;
  }

  // ---------------------------------------------------------------------------------------
  // The receiving side
  // ---------------------------------------------------------------------------------------

  datatype Decoded = Decoded(objects: seq<MetaObject>, chunks: seq<MetaChunk>, indexEntries: seq<(u64, string)>)

  function DecodeOne(d: Decoded, e: Entry): Decoded {
    match e
    case ObjectEntry(name, checksum, ids) => d.(objects := d.objects + [MetaObject(name, checksum, ids, 0)])
    case ChunkEntry(id, name, checksum, nodes) =>
      d.(chunks := d.chunks + [MetaChunk(id, name, checksum, nodes, Confirmed)], indexEntries := d.indexEntries + [(id, name)])
  }

  function Decode(entries: seq<Entry>): Decoded {
    if entries == [] then Decoded([], [], [])
    else DecodeOne(Decode(entries[..|entries| - 1]), entries[|entries| - 1])
  }

  method DecodeStream(entries: seq<Entry>) returns (d: Decoded)
    ensures d == Decode(entries)
  {
    var objects, chunks, indexEntries := [], [], [];
    var i := 0;
    while i < |entries|
      invariant 0 <= i <= |entries|
      invariant Decoded(objects, chunks, indexEntries) == Decode(entries[..i])
    {
      assert entries[..i + 1][..i] == entries[..i];
      match entries[i] {
        case ObjectEntry(name, checksum, ids) =>
          objects := objects + [MetaObject(name, checksum, ids, 0)];
        case ChunkEntry(id, name, checksum, nodes) =>
          indexEntries := indexEntries + [(id, name)];
          chunks := chunks + [MetaChunk(id, name, checksum, nodes, Confirmed)];
      }
      i := i + 1;
    }
    assert entries[..i] == entries;
    d := Decoded(objects, chunks, indexEntries);
  }

  // ---------------------------------------------------------------------------------------
  // The stream round trip
  // ---------------------------------------------------------------------------------------

  function SentObjects(part: seq<Transfer>): seq<MetaObject> {
    seq(|part|, i requires 0 <= i < |part| => part[i].obj.(totalSize := 0))
  }

  function SentChunks(part: seq<Transfer>): seq<MetaChunk> {
    if part == [] then [] else SentChunks(part[..|part| - 1]) + part[|part| - 1].records
  }

  function IndexEntriesOf(chunks: seq<MetaChunk>): seq<(u64, string)> {
    seq(|chunks|, i requires 0 <= i < |chunks| => (chunks[i].id, chunks[i].objectName))
  }

  ghost predicate AllConfirmed(chunks: seq<MetaChunk>) {
    forall i | 0 <= i < |chunks| :: chunks[i].status == Confirmed
  }

  lemma {:induction false} DecodeNext(entries: seq<Entry>, e: Entry)
    ensures Decode(entries + [e]) == DecodeOne(Decode(entries), e)
  {
    assert (entries + [e])[..|entries + [e]| - 1] == entries;
  }

  lemma {:induction false} ChunkEntriesSnoc(front: seq<MetaChunk>, last: MetaChunk)
    ensures ChunkEntries(front + [last]) ==
            ChunkEntries(front) + [ChunkEntry(last.id, last.objectName, last.checksum, last.storageNodes)]
  {
  }

  lemma {:induction false} IndexEntriesAppend(a: seq<MetaChunk>, b: seq<MetaChunk>)
    ensures IndexEntriesOf(a + b) == IndexEntriesOf(a) + IndexEntriesOf(b)
  {
  }

  lemma {:induction false} ConfirmedParts(a: seq<MetaChunk>, b: seq<MetaChunk>)
    requires AllConfirmed(a + b)
    ensures AllConfirmed(a) && AllConfirmed(b)
  {
    assert forall i | 0 <= i < |a| :: a[i] == (a + b)[i];
    assert forall i | 0 <= i < |b| :: b[i] == (a + b)[|a| + i];
  }

  lemma {:induction false} DecodeChunkEntry(entries: seq<Entry>, c: MetaChunk)
    requires c.status == Confirmed
    ensures var d := Decode(entries);
            Decode(entries + [ChunkEntry(c.id, c.objectName, c.checksum, c.storageNodes)]) ==
            Decoded(d.objects, d.chunks + [c], d.indexEntries + [(c.id, c.objectName)])
  {
    DecodeNext(entries, ChunkEntry(c.id, c.objectName, c.checksum, c.storageNodes));
  }

  lemma {:induction false} DecodeChunkEntries(entries: seq<Entry>, records: seq<MetaChunk>)
    requires AllConfirmed(records)
    ensures var d := Decode(entries);
            Decode(entries + ChunkEntries(records)) ==
            Decoded(d.objects, d.chunks + records, d.indexEntries + IndexEntriesOf(records))
  {
    if records == [] {
      assert entries + ChunkEntries(records) == entries;
    } else {
      var front, last := records[..|records| - 1], records[|records| - 1];
      assert records == front + [last];
      DecodeChunkEntries(entries, front);
      DecodeOneMore(entries, front, last, Decode(entries));
    }
  }

  lemma {:induction false} Snoc<T>(a: seq<T>, b: seq<T>, x: T)
    ensures a + (b + [x]) == (a + b) + [x]
  {
  }

  lemma {:induction false} DecodeOneMore(entries: seq<Entry>, front: seq<MetaChunk>, last: MetaChunk, d: Decoded)
    requires last.status.Confirmed?
    requires Decode(entries + ChunkEntries(front)) == Decoded(d.objects, d.chunks + front, d.indexEntries + IndexEntriesOf(front))
    ensures Decode(entries + ChunkEntries(front + [last])) ==
            Decoded(d.objects, d.chunks + (front + [last]), d.indexEntries + IndexEntriesOf(front + [last]))
  {
    var sent := entries + ChunkEntries(front);
    DecodeChunkEntry(sent, last);
    ChunkEntriesSnoc(front, last);
    IndexEntriesAppend(front, [last]);
    Snoc(entries, ChunkEntries(front), ChunkEntry(last.id, last.objectName, last.checksum, last.storageNodes));
    Snoc(d.chunks, front, last);
    Snoc(d.indexEntries, IndexEntriesOf(front), (last.id, last.objectName));
  }

  lemma {:induction false} SentSplit(part: seq<Transfer>)
    requires part != [] && AllConfirmed(SentChunks(part))
    ensures var n := |part| - 1;
            && AllConfirmed(SentChunks(part[..n])) && AllConfirmed(part[n].records)
            && SentObjects(part) == SentObjects(part[..n]) + [part[n].obj.(totalSize := 0)]
            && IndexEntriesOf(SentChunks(part)) == IndexEntriesOf(SentChunks(part[..n])) + IndexEntriesOf(part[n].records)
  {
    var n := |part| - 1;
    var before := SentChunks(part[..n]);
    ConfirmedParts(before, part[n].records);
    IndexEntriesAppend(before, part[n].records);
  }

  /** Decoding the stream gives the sent objects, size reset, and the sent chunks, if those were confirmed. */
  lemma {:induction false} DecodeEntries(part: seq<Transfer>)
    requires AllConfirmed(SentChunks(part))
    ensures Decode(Entries(part)) == Decoded(SentObjects(part), SentChunks(part), IndexEntriesOf(SentChunks(part)))
  {
    if part != [] {
      var n := |part| - 1;
      var t := part[n];
      SentSplit(part);
      DecodeEntries(part[..n]);
      var o := ObjectEntry(t.obj.name, t.obj.checksum, t.obj.chunks);
      DecodeNext(Entries(part[..n]), o);
      DecodeChunkEntries(Entries(part[..n]) + [o], t.records);
    }
  }

  // ---------------------------------------------------------------------------------------
  // What a sound store sends is a well-formed fragment
  // ---------------------------------------------------------------------------------------

  lemma {:induction false} FoundRecordsAreAll(chunks: map<u64, MetaChunk>, ids: seq<u64>)
    requires forall i | 0 <= i < |ids| :: ids[i] in chunks
    ensures |FoundRecords(chunks, ids)| == |ids|
    ensures forall i | 0 <= i < |ids| :: FoundRecords(chunks, ids)[i] == chunks[ids[i]]
  {
    if ids != [] {
      FoundRecordsAreAll(chunks, ids[..|ids| - 1]);
    }
  }

  lemma {:induction false} SentChunksMembers(part: seq<Transfer>)
    ensures forall c | c in SentChunks(part) :: exists i :: 0 <= i < |part| && c in part[i].records
    ensures forall i, c | 0 <= i < |part| && c in part[i].records :: c in SentChunks(part)
  {
    if part != [] {
      var n := |part| - 1;
      var before := SentChunks(part[..n]);
      SentChunksMembers(part[..n]);
      forall c | c in SentChunks(part)
        ensures exists i :: 0 <= i < |part| && c in part[i].records
      {
        if c in before {
          var i :| 0 <= i < n && c in part[..n][i].records;
          assert c in part[i].records;
        } else {
          assert c in part[n].records;
        }
      }
      forall i, c | 0 <= i < |part| && c in part[i].records
        ensures c in SentChunks(part)
      {
        if i < n {
          assert c in part[..n][i].records;
        }
      }
    }
  }

  /** The transfers of a sound store: each record sent is that of a chunk listed by its object. */
  ghost predicate SoundTransfers(s: MetaState, part: seq<Transfer>) {
    && Referential(s)
    && forall i | 0 <= i < |part| :: part[i].obj.name in s.objects && part[i] == TransferOf(s, part[i].obj.name)
  }

  lemma {:induction false} RecordsOfTransfer(s: MetaState, name: string)
    requires Referential(s) && name in s.objects
    ensures forall c :: c in TransferOf(s, name).records <==>
              c.id in s.objects[name].chunks && c.id in s.chunks && s.chunks[c.id] == c
    ensures forall c | c in TransferOf(s, name).records :: c.status == Confirmed && c.objectName == name && ChunkSound(c)
  {
    var ids, records := s.objects[name].chunks, TransferOf(s, name).records;
    FoundRecordsAreAll(s.chunks, ids);
    forall c
      ensures c in records <==> c.id in ids && c.id in s.chunks && s.chunks[c.id] == c
    {
      if c in records {
        var i :| 0 <= i < |records| && records[i] == c;
        assert ids[i] == c.id;
      }
      if c.id in ids && c.id in s.chunks && s.chunks[c.id] == c {
        var i :| 0 <= i < |ids| && ids[i] == c.id;
        assert records[i] == c;
      }
    }
  }

  /** The chunks that are sent are records of the store, and those of every listed chunk are among them. */
  lemma {:induction false} SentChunksExactly(s: MetaState, part: seq<Transfer>)
    requires SoundTransfers(s, part)
    ensures forall c | c in SentChunks(part) ::
              c.id in s.chunks && s.chunks[c.id] == c && c.status == Confirmed && ChunkSound(c)
    ensures forall i, id | 0 <= i < |part| && id in part[i].obj.chunks ::
              id in s.chunks && s.chunks[id] in SentChunks(part)
  {
    SentChunksMembers(part);
    forall i | 0 <= i < |part|
      ensures forall c :: c in part[i].records <==> c.id in part[i].obj.chunks && c.id in s.chunks && s.chunks[c.id] == c
      ensures forall c | c in part[i].records :: c.status == Confirmed && ChunkSound(c)
    {
      RecordsOfTransfer(s, part[i].obj.name);
    }
    forall i, id | 0 <= i < |part| && id in part[i].obj.chunks
      ensures id in s.chunks && s.chunks[id] in SentChunks(part)
    {
      assert ObjectSound(s.objects[part[i].obj.name], s.chunks);
      assert s.chunks[id] in part[i].records;
    }
  }

  lemma {:induction false} SentIsFragment(s: MetaState, part: seq<Transfer>)
    requires SoundTransfers(s, part)
    requires forall i, j | 0 <= i < j < |part| :: part[i].obj.name != part[j].obj.name
    ensures Fragment(SentObjects(part), SentChunks(part))
  {
    var objects, chunks := SentObjects(part), SentChunks(part);
    SentChunksExactly(s, part);
    assert forall k | 0 <= k < |chunks| :: chunks[k] in chunks;
    forall i | 0 <= i < |objects|
      ensures Distinct(objects[i].chunks)
      ensures forall id | id in objects[i].chunks ::
                exists k :: 0 <= k < |chunks| && chunks[k].id == id && chunks[k].objectName == objects[i].name
    {
      var o := s.objects[part[i].obj.name];
      assert ObjectSound(o, s.chunks);
      forall id | id in o.chunks
        ensures exists k :: 0 <= k < |chunks| && chunks[k].id == id && chunks[k].objectName == o.name
      {
        assert id in part[i].obj.chunks;
        var k :| 0 <= k < |chunks| && chunks[k] == s.chunks[id];
        assert chunks[k].id == id && chunks[k].objectName == o.name;
      }
    }
  }

  // ---------------------------------------------------------------------------------------
  // Pulling from one peer
  // ---------------------------------------------------------------------------------------

  /** The joiner after ingesting what one peer sent. */
  function Pulled(j: MetaState, part: seq<Transfer>): MetaState {
    IngestPartition(j, SentObjects(part), SentChunks(part)).state
  }

  /** The joiner has each object of `s` in the ranges, with checksum, list and records as `s` has them. */
  ghost predicate Delivered(j: MetaState, s: MetaState, ranges: seq<(u64, u64)>) {
    forall name | name in s.objects && HashInRanges(HashKey(name), ranges) ::
      && name in j.objects
      && j.objects[name] == s.objects[name].(totalSize := 0)
      && forall id | id in s.objects[name].chunks :: RecordOf(j.chunks, id) == RecordOf(s.chunks, id)
  }

  ghost predicate Apart(j: MetaState, s: MetaState) {
    j.objects.Keys !! s.objects.Keys && j.chunks.Keys !! s.chunks.Keys
  }

  lemma {:induction false} PullKeepsReferential(j: MetaState, s: MetaState, part: seq<Transfer>)
    requires Referential(j) && SoundTransfers(s, part) && Apart(j, s)
    requires Fragment(SentObjects(part), SentChunks(part))
    ensures Referential(Pulled(j, part))
  {
    var chunks := SentChunks(part);
    SentChunksExactly(s, part);
    forall k | 0 <= k < |chunks|
      ensures chunks[k].id !in j.chunks
    {
      assert chunks[k] in chunks && chunks[k].id in s.chunks.Keys;
    }
    assert forall name, id | name in j.objects && id in j.objects[name].chunks :: id in j.chunks;
    IngestPartitionKeeps(j, SentObjects(part), chunks);
  }

  lemma {:induction false} PullAddsObjects(j: MetaState, s: MetaState, ranges: seq<(u64, u64)>, part: seq<Transfer>)
    requires IsPartition(s, ranges, part) && Apart(j, s)
    ensures forall name :: name in Pulled(j, part).objects <==>
              name in j.objects || (name in s.objects && HashInRanges(HashKey(name), ranges))
    ensures forall name | name in j.objects :: Pulled(j, part).objects[name] == j.objects[name]
    ensures forall name | name in s.objects && HashInRanges(HashKey(name), ranges) ::
              Pulled(j, part).objects[name] == s.objects[name].(totalSize := 0)
  {
    var objects := SentObjects(part);
    AddObjectsEntries(j.objects, objects);
    forall name | name in s.objects && HashInRanges(HashKey(name), ranges)
      ensures exists i :: 0 <= i < |objects| && objects[i].name == name && objects[i] == s.objects[name].(totalSize := 0)
    {
      var i :| 0 <= i < |part| && part[i].obj.name == name;
      assert objects[i].name == name;
    }
    forall name | name in j.objects
      ensures name !in s.objects
    {
      assert name in j.objects.Keys;
    }
  }

  lemma {:induction false} PullAddsChunks(j: MetaState, s: MetaState, part: seq<Transfer>)
    requires SoundTransfers(s, part) && Apart(j, s)
    requires Fragment(SentObjects(part), SentChunks(part))
    ensures forall id | id in j.chunks :: id in Pulled(j, part).chunks && Pulled(j, part).chunks[id] == j.chunks[id]
    ensures forall id | id in Pulled(j, part).chunks :: id in j.chunks || id in s.chunks
    ensures forall i, id | 0 <= i < |part| && id in part[i].obj.chunks ::
              id in s.chunks && RecordOf(Pulled(j, part).chunks, id) == Some(s.chunks[id])
  {
    var chunks := SentChunks(part);
    SentChunksExactly(s, part);
    AddChunksEntries(j.chunks, chunks);
    assert forall k | 0 <= k < |chunks| :: chunks[k] in chunks;
    forall id | id in j.chunks
      ensures id !in s.chunks
    {
      assert id in j.chunks.Keys;
    }
    forall i, id | 0 <= i < |part| && id in part[i].obj.chunks
      ensures RecordOf(Pulled(j, part).chunks, id) == Some(s.chunks[id])
    {
      var k :| 0 <= k < |chunks| && chunks[k] == s.chunks[id];
      assert chunks[k].id == id;
    }
  }

  /** One pull: nothing local changes, exactly the peer's objects in the ranges arrive, and they arrive whole. */
  lemma {:induction false} PullOne(j: MetaState, s: MetaState, ranges: seq<(u64, u64)>, part: seq<Transfer>)
    requires Referential(j) && Referential(s) && IsPartition(s, ranges, part) && Apart(j, s)
    ensures var t := Pulled(j, part);
            && Referential(t) && Delivered(t, s, ranges)
            && (forall name :: name in t.objects <==>
                  name in j.objects || (name in s.objects && HashInRanges(HashKey(name), ranges)))
            && (forall name | name in j.objects :: t.objects[name] == j.objects[name])
            && (forall id | id in j.chunks :: id in t.chunks && t.chunks[id] == j.chunks[id])
            && (forall id | id in t.chunks :: id in j.chunks || id in s.chunks)
  {
    SentIsFragment(s, part);
    PullKeepsReferential(j, s, part);
    PullAddsObjects(j, s, ranges, part);
    PullAddsChunks(j, s, part);
    forall name | name in s.objects && HashInRanges(HashKey(name), ranges)
      ensures forall id | id in s.objects[name].chunks :: RecordOf(Pulled(j, part).chunks, id) == RecordOf(s.chunks, id)
    {
      var i :| 0 <= i < |part| && part[i].obj.name == name;
      assert part[i].obj == s.objects[name];
    }
  }

  // ---------------------------------------------------------------------------------------
  // Pulling from all peers
  // ---------------------------------------------------------------------------------------

  function JoinAll(j: MetaState, parts: seq<seq<Transfer>>): MetaState {
    if parts == [] then j else Pulled(JoinAll(j, parts[..|parts| - 1]), parts[|parts| - 1])
  }

  /** Peers and joiner know different objects and chunks; `parts` are the partitions the peers send. */
  ghost predicate Sources(j: MetaState, peers: seq<MetaState>, ranges: seq<(u64, u64)>, parts: seq<seq<Transfer>>) {
    && |parts| == |peers|
    && (forall i | 0 <= i < |peers| :: Referential(peers[i]) && IsPartition(peers[i], ranges, parts[i]) && Apart(j, peers[i]))
    && (forall i, k | 0 <= i < k < |peers| :: Apart(peers[i], peers[k]))
  }

  /** Delivered objects stay as they are while further peers, known to be apart, are pulled from. */
  lemma {:induction false} DeliveredStays(j: MetaState, t: MetaState, s: MetaState, ranges: seq<(u64, u64)>)
    requires Referential(s) && Delivered(j, s, ranges)
    requires forall name | name in j.objects :: name in t.objects && t.objects[name] == j.objects[name]
    requires forall id | id in j.chunks :: id in t.chunks && t.chunks[id] == j.chunks[id]
    ensures Delivered(t, s, ranges)
  {
    forall name, id | name in s.objects && HashInRanges(HashKey(name), ranges) && id in s.objects[name].chunks
      ensures RecordOf(t.chunks, id) == RecordOf(s.chunks, id)
    {
      assert RecordOf(j.chunks, id) == RecordOf(s.chunks, id);
      assert id in s.chunks;
    }
  }

  /** Some peer has the object, and it is in the ranges. */
  ghost predicate OnPeer(peers: seq<MetaState>, ranges: seq<(u64, u64)>, name: string) {
    exists i :: 0 <= i < |peers| && name in peers[i].objects && HashInRanges(HashKey(name), ranges)
  }

  ghost predicate ChunkOnPeer(peers: seq<MetaState>, id: u64) {
    exists i :: 0 <= i < |peers| && id in peers[i].chunks
  }

  lemma {:induction false} OnOneMore(peers: seq<MetaState>, s: MetaState, ranges: seq<(u64, u64)>, name: string)
    ensures OnPeer(peers + [s], ranges, name) <==>
            OnPeer(peers, ranges, name) || (name in s.objects && HashInRanges(HashKey(name), ranges))
  {
    var more := peers + [s];
    assert more[|peers|] == s && more[..|peers|] == peers;
    if OnPeer(peers, ranges, name) {
      var i :| 0 <= i < |peers| && name in peers[i].objects && HashInRanges(HashKey(name), ranges);
      assert name in more[i].objects;
    }
  }

  lemma {:induction false} ChunkOnOneMore(peers: seq<MetaState>, s: MetaState, id: u64)
    requires ChunkOnPeer(peers, id) || id in s.chunks
    ensures ChunkOnPeer(peers + [s], id)
  {
    var more := peers + [s];
    assert more[|peers|] == s;
    if ChunkOnPeer(peers, id) {
      var i :| 0 <= i < |peers| && id in peers[i].chunks;
      assert id in more[i].chunks;
    }
  }

  /** What `t` has over `j`: all objects of the peers in the ranges, whole, and nothing else. */
  ghost predicate Collected(t: MetaState, j: MetaState, peers: seq<MetaState>, ranges: seq<(u64, u64)>) {
    && (forall i | 0 <= i < |peers| :: Delivered(t, peers[i], ranges))
    && (forall name :: name in t.objects <==> name in j.objects || OnPeer(peers, ranges, name))
    && (forall name | name in j.objects :: t.objects[name] == j.objects[name])
    && (forall id | id in t.chunks :: id in j.chunks || ChunkOnPeer(peers, id))
  }

  lemma {:induction false} StillApart(t: MetaState, j: MetaState, peers: seq<MetaState>, ranges: seq<(u64, u64)>, s: MetaState)
    requires Collected(t, j, peers, ranges) && Apart(j, s)
    requires forall i | 0 <= i < |peers| :: Apart(peers[i], s)
    ensures Apart(t, s)
  {
    forall name | name in t.objects.Keys
      ensures name !in s.objects.Keys
    {
      if name in j.objects {
        assert name in j.objects.Keys;
      } else {
        var i :| 0 <= i < |peers| && name in peers[i].objects && HashInRanges(HashKey(name), ranges);
        assert name in peers[i].objects.Keys;
      }
    }
    forall id | id in t.chunks.Keys
      ensures id !in s.chunks.Keys
    {
      if id in j.chunks {
        assert id in j.chunks.Keys;
      } else {
        var i :| 0 <= i < |peers| && id in peers[i].chunks;
        assert id in peers[i].chunks.Keys;
      }
    }
  }

  lemma {:induction false} DeliveredByAll(before: MetaState, t: MetaState, peers: seq<MetaState>, ranges: seq<(u64, u64)>, s: MetaState)
    requires forall i | 0 <= i < |peers| :: Referential(peers[i]) && Delivered(before, peers[i], ranges)
    requires Delivered(t, s, ranges)
    requires forall name | name in before.objects :: name in t.objects && t.objects[name] == before.objects[name]
    requires forall id | id in before.chunks :: id in t.chunks && t.chunks[id] == before.chunks[id]
    ensures forall i | 0 <= i < |peers + [s]| :: Delivered(t, (peers + [s])[i], ranges)
  {
    forall i | 0 <= i < |peers + [s]|
      ensures Delivered(t, (peers + [s])[i], ranges)
    {
      if i < |peers| {
        DeliveredStays(before, t, peers[i], ranges);
      }
    }
  }

  lemma {:induction false} CollectOneMore(before: MetaState, j: MetaState, peers: seq<MetaState>, ranges: seq<(u64, u64)>, s: MetaState, part: seq<Transfer>)
    requires Referential(before) && Collected(before, j, peers, ranges) && Apart(before, s)
    requires Referential(s) && IsPartition(s, ranges, part)
    requires forall i | 0 <= i < |peers| :: Referential(peers[i])
    ensures Referential(Pulled(before, part)) && Collected(Pulled(before, part), j, peers + [s], ranges)
  {
    var t := Pulled(before, part);
    PullOne(before, s, ranges, part);
    DeliveredByAll(before, t, peers, ranges, s);
    forall name
      ensures name in t.objects <==> name in j.objects || OnPeer(peers + [s], ranges, name)
    {
      OnOneMore(peers, s, ranges, name);
    }
    forall id | id in t.chunks && id !in j.chunks
      ensures ChunkOnPeer(peers + [s], id)
    {
      ChunkOnOneMore(peers, s, id);
    }
  }

  lemma {:induction false} FrontOfSources(j: MetaState, front: seq<MetaState>, last: MetaState, ranges: seq<(u64, u64)>, parts: seq<seq<Transfer>>)
    requires Sources(j, front + [last], ranges, parts)
    ensures Sources(j, front, ranges, parts[..|front|])
    ensures Referential(last) && IsPartition(last, ranges, parts[|front|]) && Apart(j, last)
    ensures forall i | 0 <= i < |front| :: Referential(front[i]) && Apart(front[i], last)
  {
    var peers := front + [last];
    assert peers[|front|] == last;
    assert forall i | 0 <= i < |front| :: front[i] == peers[i];
  }

  lemma {:induction false} JoinCollects(j: MetaState, peers: seq<MetaState>, ranges: seq<(u64, u64)>, parts: seq<seq<Transfer>>)
    requires Referential(j) && Sources(j, peers, ranges, parts)
    ensures Referential(JoinAll(j, parts)) && Collected(JoinAll(j, parts), j, peers, ranges)
  {
    if parts != [] {
      var n := |parts| - 1;
      var front, last, before := peers[..n], peers[n], JoinAll(j, parts[..n]);
      assert front + [last] == peers;
      FrontOfSources(j, front, last, ranges, parts);
      JoinCollects(j, front, ranges, parts[..n]);
      StillApart(before, j, front, ranges, last);
      CollectOneMore(before, j, front, ranges, last, parts[n]);
    }
  }

  /**
   * Migration against routing. With no virtual node at `u64::MAX`, a joiner that pulls its owned
   * ranges from all peers gets exactly the peers' objects that the ring routes to it, except one
   * whose name hashes to `u64::MAX`; each arrives with the same checksum, chunk order and chunk
   * records, and only its size is reset.
   */
  lemma {:induction false} MigrationIsExact(ring: Ring, self: string, j: MetaState, peers: seq<MetaState>, parts: seq<seq<Transfer>>, i: nat, name: string)
    requires ring != map[] && U64_MAX !in ring
    requires Referential(j) && Sources(j, peers, OwnedRanges(ring, self), parts)
    requires i < |peers| && name in peers[i].objects
    ensures var t := JoinAll(j, parts);
            && Referential(t)
            && (name in t.objects <==> GetOwner(ring, name) == Some(self) && HashKey(name) != U64_MAX)
            && (name in t.objects ==> View(t)[name] == View(peers[i])[name].(totalSize := 0))
  {
    var ranges := OwnedRanges(ring, self);
    var t := JoinAll(j, parts);
    JoinCollects(j, peers, ranges, parts);
    RangesAgreeWithLookup(ring, self, HashKey(name));
    assert name !in j.objects by {
      assert Apart(j, peers[i]) && name in peers[i].objects.Keys;
    }
    assert OnPeer(peers, ranges, name) <==> HashInRanges(HashKey(name), ranges);
    if name in t.objects {
      assert Delivered(t, peers[i], ranges);
      SameRecordsSameView(peers[i].objects[name], t.chunks, peers[i].chunks);
      assert ViewOf(t.objects[name], t.chunks).records == ViewOf(peers[i].objects[name], t.chunks).records;
    }
  }

  /** Nothing arrives that no peer had. */
  lemma {:induction false} MigrationInventsNothing(j: MetaState, peers: seq<MetaState>, ranges: seq<(u64, u64)>, parts: seq<seq<Transfer>>, name: string)
    requires Referential(j) && Sources(j, peers, ranges, parts)
    ensures name in JoinAll(j, parts).objects ==>
              name in j.objects || OnPeer(peers, ranges, name)
  {
    JoinCollects(j, peers, ranges, parts);
  }

  // ---------------------------------------------------------------------------------------
  // The chunk index after a pull
  // ---------------------------------------------------------------------------------------

  lemma {:induction false} InsertedEntries(index: map<u64, string>, entries: seq<(u64, string)>)
    requires forall i, k | 0 <= i < k < |entries| && entries[i].0 == entries[k].0 :: entries[i].1 == entries[k].1
    ensures forall i | 0 <= i < |entries| ::
              entries[i].0 in Inserted(index, entries) && Inserted(index, entries)[entries[i].0] == entries[i].1
    ensures forall id | id in index ::
              id in Inserted(index, entries) &&
              (Inserted(index, entries)[id] == index[id] || exists i :: 0 <= i < |entries| && entries[i].0 == id)
  {
    if entries != [] {
      InsertedEntries(index, entries[..|entries| - 1]);
    }
  }

  /** Every chunk listed by a transferred object is indexed under that object's name. */
  ghost predicate Covers(index: map<u64, string>, part: seq<Transfer>) {
    forall i, id | 0 <= i < |part| && id in part[i].obj.chunks :: id in index && index[id] == part[i].obj.name
  }

  /** Entries of chunks unknown to `s` are as before. */
  ghost predicate KeepsOthers(index: map<u64, string>, after: map<u64, string>, s: MetaState) {
    forall id | id in index && id !in s.chunks :: id in after && after[id] == index[id]
  }

  lemma {:induction false} SentEntries(s: MetaState, part: seq<Transfer>, index: map<u64, string>)
    requires SoundTransfers(s, part)
    ensures var after := Inserted(index, IndexEntriesOf(SentChunks(part)));
            Covers(after, part) && KeepsOthers(index, after, s)
  {
    var chunks := SentChunks(part);
    var entries := IndexEntriesOf(chunks);
    SentChunksExactly(s, part);
    assert forall k | 0 <= k < |chunks| :: chunks[k] in chunks;
    InsertedEntries(index, entries);
    forall i, id | 0 <= i < |part| && id in part[i].obj.chunks
      ensures id in Inserted(index, entries) && Inserted(index, entries)[id] == part[i].obj.name
    {
      assert ObjectSound(s.objects[part[i].obj.name], s.chunks);
      var k :| 0 <= k < |chunks| && chunks[k] == s.chunks[id];
      assert entries[k] == (id, part[i].obj.name);
    }
  }

  /** Old objects keep old entries, new objects have the entries of their own chunks. */
  lemma {:induction false} AgreesFromParts(j: MetaState, s: MetaState, t: MetaState, part: seq<Transfer>, index: map<u64, string>, after: map<u64, string>)
    requires Referential(j) && Agrees(j, index) && Apart(j, s)
    requires forall name | name in t.objects ::
               || (name in j.objects && t.objects[name] == j.objects[name])
               || exists i :: 0 <= i < |part| && part[i].obj.name == name && part[i].obj.chunks == t.objects[name].chunks
    requires Covers(after, part) && KeepsOthers(index, after, s)
    ensures Agrees(t, after)
  {
    forall name, id | name in t.objects && id in t.objects[name].chunks
      ensures id in after && after[id] == name
    {
      if name in j.objects && t.objects[name] == j.objects[name] {
        assert id in j.objects[name].chunks && id in j.chunks.Keys;
      } else {
        var i :| 0 <= i < |part| && part[i].obj.name == name && part[i].obj.chunks == t.objects[name].chunks;
        assert id in part[i].obj.chunks;
      }
    }
  }

  /** Inserting the entries that came with the chunks keeps store and index in agreement. */
  lemma {:induction false} PullKeepsAgreement(j: MetaState, s: MetaState, ranges: seq<(u64, u64)>, part: seq<Transfer>, index: map<u64, string>)
    requires Referential(j) && Referential(s) && IsPartition(s, ranges, part) && Apart(j, s)
    requires Agrees(j, index)
    ensures Agrees(Pulled(j, part), Inserted(index, IndexEntriesOf(SentChunks(part))))
  {
    PullAddsObjects(j, s, ranges, part);
    SentEntries(s, part, index);
    AgreesFromParts(j, s, Pulled(j, part), part, index, Inserted(index, IndexEntriesOf(SentChunks(part))));
  }

  /** What a sound store streams is decoded as it was sent: only confirmed chunks are ever listed. */
  lemma {:induction false} PartitionDecodes(s: MetaState, ranges: seq<(u64, u64)>, part: seq<Transfer>)
    requires Referential(s) && IsPartition(s, ranges, part)
    ensures Decode(Entries(part)) == Decoded(SentObjects(part), SentChunks(part), IndexEntriesOf(SentChunks(part)))
  {
    SentChunksExactly(s, part);
    var sent := SentChunks(part);
    assert forall i | 0 <= i < |sent| :: sent[i] in sent;
    DecodeEntries(part);
  }

  /** What became of one pull: a peer that was not reached, or whose partition could not be saved, may leave nothing. */
  ghost predicate PulledFrom(s: MetaState, ranges: seq<(u64, u64)>, reached: bool, part: seq<Transfer>) {
    IsPartition(s, ranges, part) || (!reached && part == [])
  }

  ghost predicate AllPulled(states: seq<MetaState>, ranges: seq<(u64, u64)>, reached: seq<bool>, parts: seq<seq<Transfer>>) {
    && |parts| == |reached| <= |states|
    && forall i | 0 <= i < |reached| :: PulledFrom(states[i], ranges, reached[i], parts[i])
  }

  /** Every peer that answers has been reached, of those asked so far. */
  ghost predicate AllThatAnswer(peers: seq<MetadataStore>, up: set<MetadataStore>, reached: seq<bool>) {
    forall k | 0 <= k < |reached| && k < |peers| && peers[k] in up :: reached[k]
  }

  /** All sound, and no two know a common object or chunk. */
  ghost predicate AllApart(j: MetaState, peers: seq<MetaState>) {
    && Referential(j) && (forall i | 0 <= i < |peers| :: Referential(peers[i]) && Apart(j, peers[i]))
    && (forall i, k | 0 <= i < k < |peers| :: Apart(peers[i], peers[k]))
  }

  /** Of the peers' objects `t` has those that the ring routes to `self`, whole, but for names hashing to `u64::MAX`. */
  ghost predicate OwnedExactly(ring: Ring, self: string, peers: seq<MetaState>, t: MetaState) {
    Referential(t) && forall i, name | 0 <= i < |peers| && name in peers[i].objects :: ArrivedAsOwned(ring, self, peers[i], t, name)
  }

  ghost predicate ArrivedAsOwned(ring: Ring, self: string, s: MetaState, t: MetaState, name: string)
    requires name in s.objects
  {
    && (name in t.objects <==> GetOwner(ring, name) == Some(self) && HashKey(name) != U64_MAX)
    && (name in t.objects ==> View(t)[name] == View(s)[name].(totalSize := 0))
  }

  /** Having pulled from all peers, or having no range to pull, leaves exactly that. */
  lemma {:induction false} PulledIsExact(ring: Ring, self: string, j: MetaState, peers: seq<MetaState>, reached: seq<bool>, parts: seq<seq<Transfer>>)
    requires ring != map[] && U64_MAX !in ring && AllApart(j, peers)
    requires AllPulled(peers, OwnedRanges(ring, self), reached, parts)
    requires if OwnedRanges(ring, self) == [] then parts == [] else |reached| == |peers| && forall i | 0 <= i < |reached| :: reached[i]
    ensures OwnedExactly(ring, self, peers, JoinAll(j, parts))
  {
    if OwnedRanges(ring, self) != [] {
      assert Sources(j, peers, OwnedRanges(ring, self), parts);
      JoinCollects(j, peers, OwnedRanges(ring, self), parts);
    }
    forall i, name | 0 <= i < |peers| && name in peers[i].objects
      ensures ArrivedAsOwned(ring, self, peers[i], JoinAll(j, parts), name)
    {
      if OwnedRanges(ring, self) == [] {
        NothingOwned(ring, self, j, peers[i], name);
      } else {
        MigrationIsExact(ring, self, j, peers, parts, i, name);
      }
    }
  }

  lemma {:induction false} NothingOwned(ring: Ring, self: string, j: MetaState, s: MetaState, name: string)
    requires ring != map[] && U64_MAX !in ring && OwnedRanges(ring, self) == [] && Apart(j, s) && name in s.objects
    ensures ArrivedAsOwned(ring, self, s, j, name)
  {
    assert name in s.objects.Keys;
    RangesAgreeWithLookup(ring, self, HashKey(name));
  }

  /** The index after the pulls that succeeded. */
  function IndexAfter(index: map<u64, string>, reached: seq<bool>, parts: seq<seq<Transfer>>): map<u64, string>
    requires |reached| == |parts|
  {
    if parts == [] then index
    else
      var before := IndexAfter(index, reached[..|parts| - 1], parts[..|parts| - 1]);
      if reached[|parts| - 1] then Inserted(before, IndexEntriesOf(SentChunks(parts[|parts| - 1]))) else before
  }

  lemma {:induction false} IndexOneMore(index: map<u64, string>, reached: seq<bool>, parts: seq<seq<Transfer>>, ok: bool, part: seq<Transfer>)
    requires |reached| == |parts|
    ensures IndexAfter(index, reached + [ok], parts + [part]) ==
            if ok then Inserted(IndexAfter(index, reached, parts), IndexEntriesOf(SentChunks(part))) else IndexAfter(index, reached, parts)
  {
    assert (reached + [ok])[..|parts|] == reached && (parts + [part])[..|parts|] == parts;
  }

  /** Pulling from all peers keeps store and index in agreement. */
  lemma {:induction false} JoinKeepsAgreement(j: MetaState, peers: seq<MetaState>, ranges: seq<(u64, u64)>, reached: seq<bool>,
                                              parts: seq<seq<Transfer>>, index: map<u64, string>)
    requires Referential(j) && Sources(j, peers, ranges, parts) && Agrees(j, index)
    requires |reached| == |parts| && forall i | 0 <= i < |reached| :: reached[i]
    ensures Agrees(JoinAll(j, parts), IndexAfter(index, reached, parts))
  {
    if parts != [] {
      var n := |parts| - 1;
      var front, last, before := peers[..n], peers[n], JoinAll(j, parts[..n]);
      assert front + [last] == peers;
      FrontOfSources(j, front, last, ranges, parts);
      JoinCollects(j, front, ranges, parts[..n]);
      StillApart(before, j, front, ranges, last);
      JoinKeepsAgreement(j, front, ranges, reached[..n], parts[..n], index);
      PullKeepsAgreement(before, last, ranges, parts[n], IndexAfter(index, reached[..n], parts[..n]));
    }
  }

  /** A join in which every pull succeeded: exactly the owned objects, and store and index in agreement. */
  lemma {:induction false} JoinSettles(ring: Ring, self: string, j: MetaState, peers: seq<MetaState>, reached: seq<bool>,
                                       parts: seq<seq<Transfer>>, index: map<u64, string>)
    requires AllApart(j, peers) && AllPulled(peers, OwnedRanges(ring, self), reached, parts)
    requires |reached| == if |ring.Values| > 1 && OwnedRanges(ring, self) != [] then |peers| else 0
    requires forall i | 0 <= i < |reached| :: reached[i]
    ensures |ring.Values| > 1 && U64_MAX !in ring ==> OwnedExactly(ring, self, peers, JoinAll(j, parts))
    ensures Agrees(j, index) ==> Agrees(JoinAll(j, parts), IndexAfter(index, reached, parts))
  {
    if |ring.Values| > 1 && U64_MAX !in ring {
      PulledIsExact(ring, self, j, peers, reached, parts);
    }
    if Agrees(j, index) && parts != [] {
      assert Sources(j, peers, OwnedRanges(ring, self), parts);
      JoinKeepsAgreement(j, peers, OwnedRanges(ring, self), reached, parts, index);
    }
  }

  /** Store and index are at these values after some pulls. */
  ghost predicate Joining(states: seq<MetaState>, ranges: seq<(u64, u64)>, start: MetaState, index: map<u64, string>,
                          now: MetaState, nowIndex: map<u64, string>, reached: seq<bool>, parts: seq<seq<Transfer>>) {
    AllPulled(states, ranges, reached, parts) && now == JoinAll(start, parts) && nowIndex == IndexAfter(index, reached, parts)
  }

  lemma {:induction false} OneMorePulled(states: seq<MetaState>, ranges: seq<(u64, u64)>, start: MetaState, index: map<u64, string>,
                                         now: MetaState, nowIndex: map<u64, string>, reached: seq<bool>, parts: seq<seq<Transfer>>,
                                         ok: bool, part: seq<Transfer>, after: MetaState, afterIndex: map<u64, string>)
    requires Joining(states, ranges, start, index, now, nowIndex, reached, parts)
    requires |reached| < |states| && PulledFrom(states[|reached|], ranges, ok, part)
    requires after == Pulled(now, part)
    requires afterIndex == if ok then Inserted(nowIndex, IndexEntriesOf(SentChunks(part))) else nowIndex
    ensures Joining(states, ranges, start, index, after, afterIndex, reached + [ok], parts + [part])
  {
    assert (parts + [part])[..|parts|] == parts;
    IndexOneMore(index, reached, parts, ok, part);
  }

  lemma {:induction false} OneMoreAnswers(peers: seq<MetadataStore>, up: set<MetadataStore>, reached: seq<bool>, ok: bool)
    requires AllThatAnswer(peers, up, reached) && |reached| < |peers| && (peers[|reached|] in up ==> ok)
    ensures AllThatAnswer(peers, up, reached + [ok])
  {
  }

  class MigrationManager {
    const nodeId: string
    const ring: HashRing
    const store: MetadataStore
    const chunkIndex: ChunkIndex
    /** These peers answer, and send their partitions to the end. */
    const up: set<MetadataStore>

    constructor (nodeId: string, ring: HashRing, store: MetadataStore, chunkIndex: ChunkIndex, up: set<MetadataStore>)
      ensures this.nodeId == nodeId && this.ring == ring && this.store == store && this.chunkIndex == chunkIndex && this.up == up
    {
      this.nodeId, this.ring, this.store, this.chunkIndex, this.up := nodeId, ring, store, chunkIndex, up;
    }

    /** Asks one peer for the ranges and ingests what it sends; the peer may be out of reach. */
    method PullPartition(peer: MetadataStore, ranges: seq<(u64, u64)>) returns (r: Result<()>, ghost part: seq<Transfer>)
      requires store.Valid() && peer != store && Referential(peer.State())
      modifies store, store.file, chunkIndex
      ensures store.Valid() && store.State() == Pulled(old(store.State()), part)
      ensures PulledFrom(peer.State(), ranges, r.Ok?, part)
      ensures peer in up && store.file.reliable ==> r.Ok?
      ensures chunkIndex.index == if r.Ok? then Inserted(old(chunkIndex.index), IndexEntriesOf(SentChunks(part))) else old(chunkIndex.index)
    {
      var unreachable: bool := *;
      if unreachable && peer !in up {
        return Err(Io), [];
      }
      var entries := TransferPartition(peer, ranges);
      part :| IsPartition(peer.State(), ranges, part) && entries == Entries(part);
      PartitionDecodes(peer.State(), ranges, part);
      r := Receive(entries, part);
    }

    /** Decodes and ingests what a peer has sent. */
    method Receive(entries: seq<Entry>, ghost part: seq<Transfer>) returns (r: Result<()>)
      requires store.Valid()
      requires Decode(entries) == Decoded(SentObjects(part), SentChunks(part), IndexEntriesOf(SentChunks(part)))
      modifies store, store.file, chunkIndex
      ensures store.Valid() && store.State() == Pulled(old(store.State()), part)
      ensures store.file.reliable ==> r.Ok?
      ensures chunkIndex.index == if r.Ok? then Inserted(old(chunkIndex.index), IndexEntriesOf(SentChunks(part))) else old(chunkIndex.index)
    {
      var d := DecodeStream(entries);
      if d.objects == [] && d.chunks == [] {
        return Ok(());
      }
      r := store.IngestPartition(d.objects, d.chunks);
      if r.Ok? {
        chunkIndex.BulkInsert(d.indexEntries);
      }
    }

    /** What the peers hold. */
    ghost function States(peers: seq<MetadataStore>): (states: seq<MetaState>)
      reads peers
      ensures |states| == |peers| && forall i | 0 <= i < |peers| :: states[i] == peers[i].State()
    {
      seq(|peers|, i requires 0 <= i < |peers| reads peers => peers[i].State())
    }

    /** Pulls the ranges from every peer, one after the other; failures are skipped. */
    method PullFromAll(peers: seq<MetadataStore>, ranges: seq<(u64, u64)>) returns (reached: seq<bool>, ghost parts: seq<seq<Transfer>>)
      requires store.Valid() && store !in peers
      requires forall p | p in peers :: Referential(p.State())
      modifies store, store.file, chunkIndex
      ensures store.Valid() && store.State() == JoinAll(old(store.State()), parts)
      ensures |reached| == |peers| && AllPulled(old(States(peers)), ranges, reached, parts)
      ensures store.file.reliable ==> AllThatAnswer(peers, up, reached)
      ensures chunkIndex.index == IndexAfter(old(chunkIndex.index), reached, parts)
    {
      ghost var start, states, index := store.State(), States(peers), chunkIndex.index;
      reached, parts := [], [];
      var i := 0;
      while i < |peers|
        invariant 0 <= i <= |peers| && |reached| == i && store.Valid()
        invariant forall k | 0 <= k < |peers| :: peers[k].State() == states[k] && Referential(states[k])
        invariant Joining(states, ranges, start, index, store.State(), chunkIndex.index, reached, parts)
        invariant store.file.reliable ==> AllThatAnswer(peers, up, reached)
      {
        reached, parts := PullNext(peers, ranges, states, start, index, reached, parts);
        i := i + 1;
      }
    }

    /** The next pull, after some have been made. */
    method PullNext(peers: seq<MetadataStore>, ranges: seq<(u64, u64)>, ghost states: seq<MetaState>, ghost start: MetaState,
                    ghost index: map<u64, string>, before: seq<bool>, ghost pulled: seq<seq<Transfer>>)
      returns (reached: seq<bool>, ghost parts: seq<seq<Transfer>>)
      requires |before| < |peers| == |states| && store.Valid() && peers[|before|] != store
      requires peers[|before|].State() == states[|before|] && Referential(states[|before|])
      requires Joining(states, ranges, start, index, store.State(), chunkIndex.index, before, pulled)
      requires store.file.reliable ==> AllThatAnswer(peers, up, before)
      modifies store, store.file, chunkIndex
      ensures store.Valid() && |reached| == |before| + 1
      ensures Joining(states, ranges, start, index, store.State(), chunkIndex.index, reached, parts)
      ensures store.file.reliable ==> AllThatAnswer(peers, up, reached)
    {
      ghost var was, wasIndex := store.State(), chunkIndex.index;
      var r;
      ghost var part;
      r, part := PullPartition(peers[|before|], ranges);
      OneMorePulled(states, ranges, start, index, was, wasIndex, before, pulled, r.Ok?, part, store.State(), chunkIndex.index);
      if store.file.reliable {
        OneMoreAnswers(peers, up, before, r.Ok?);
      }
      reached, parts := before + [r.Ok?], pulled + [part];
    }

    /** Takes over the ranges this node owns, unless it is alone or owns none. */
    method MigrateOnJoin(peers: seq<MetadataStore>) returns (reached: seq<bool>, ghost parts: seq<seq<Transfer>>)
      requires store.Valid() && store !in peers
      requires forall p | p in peers :: Referential(p.State())
      modifies store, store.file, chunkIndex
      ensures store.Valid() && store.State() == JoinAll(old(store.State()), parts)
      ensures |reached| == if |ring.ring.Values| > 1 && OwnedRanges(ring.ring, nodeId) != [] then |peers| else 0
      ensures AllPulled(old(States(peers)), OwnedRanges(ring.ring, nodeId), reached, parts)
      ensures store.file.reliable ==> AllThatAnswer(peers, up, reached)
      ensures chunkIndex.index == IndexAfter(old(chunkIndex.index), reached, parts)
      ensures Undisturbed(peers) && AllApart(old(store.State()), old(States(peers))) ==>
                && (|ring.ring.Values| > 1 && U64_MAX !in ring.ring ==> OwnedExactly(ring.ring, nodeId, old(States(peers)), store.State()))
                && (Agrees(old(store.State()), old(chunkIndex.index)) ==> Agrees(store.State(), chunkIndex.index))
    {
      ghost var start, states, index := store.State(), States(peers), chunkIndex.index;
      reached, parts := [], [];
      if |ring.ring.Values| > 1 {
        var ranges := ring.GetOwnedRanges(nodeId);
        if ranges != [] {
          reached, parts := PullFromAll(peers, ranges);
        }
      }
      if Undisturbed(peers) && AllApart(start, states) {
        JoinSettles(ring.ring, nodeId, start, states, reached, parts, index);
      }
    }

    /** All peers answer, and saving does not fail. */
    ghost predicate Undisturbed(peers: seq<MetadataStore>) {
      store.file.reliable && forall k | 0 <= k < |peers| :: peers[k] in up
    }
  }
}
